// The MegaApi facade (Source/MEGASync/sdk/megaapi.cpp:891-4097) with its lock held: the
// request and transfer queues, the maps that correlate engine callbacks with the records
// callers hold, the listener sets, and the notices the fireOn* methods deliver. The
// engine (MegaClient) is not modelled: `reqtag` and `restag` are its tag counter and the
// tag of the command being answered, which it sets before each callback; the commands
// handed to it are logged in `commands`; what it reports comes in as parameters.
module Facade {
  import opened Wrappers
  import opened Errors
  import opened Text
  import opened Records
  import opened Helpers
  import opened Events
  import opened Dispatch
  import opened Accounting
  import opened Handoff

  /** The listener sets, one per kind of listener interface. */
  datatype Category = AllEvents | RequestEvents | TransferEvents | GlobalEvents

  /** What decrypting a public file's attributes with its key gave: nothing, or the attribute map's name entry, if any. */
  datatype Decryption = Undecryptable | Attributes(nameAttr: Option<string>)

  /**
   * The name openfilelink_result gives a public file node: a placeholder when there is
   * no key, when the attributes do not decrypt or lack a name, or when the name is empty.
   */
  function PublicFileName(key: Option<seq<bv8>>, d: Decryption): (r: string)
    ensures r != []
    ensures key.Some? && d.Attributes? && d.nameAttr.Some? && d.nameAttr.value != [] ==> r == d.nameAttr.value
    ensures key.None? ==> r == "NO_KEY"
  {
    if key.None? then "NO_KEY"
    else match d
      case Undecryptable => "CRYPTO_ERROR"
      case Attributes(None) => "CRYPTO_ERROR"
      case Attributes(Some(n)) => if n == [] then "BLANK" else n
  }

  /**
   * The notices of finishing every request of a map with error `e`, in increasing tag
   * order: the order in which logout walks requestMap.
   */
  ghost function RequestFinishes(m: map<int, Request>, category: set<ListenerId>,
                                 all: set<ListenerId>, e: int): seq<Notice>
    decreases |m|
  {
    if m == map[] then []
    else
      var k := Least(m.Keys);
      assert m.Keys - {k} < m.Keys;
      FanOut(category, all, m[k].listener, RequestFinish(m[k], e))
        + RequestFinishes(m - {k}, category, all, e)
  }

  /** The notices of finishing every transfer of a map with error `e`, in increasing key order. */
  ghost function TransferFinishes(m: map<int, Transfer>, category: set<ListenerId>,
                                  all: set<ListenerId>, e: int): seq<Notice>
    decreases |m|
  {
    if m == map[] then []
    else
      var k := Least(m.Keys);
      assert m.Keys - {k} < m.Keys;
      FanOut(category, all, m[k].listener, TransferFinish(m[k], e))
        + TransferFinishes(m - {k}, category, all, e)
  }

  /** One step of RequestFinishes: the least tag first, then the rest of the map, which is smaller. */
  lemma RequestFinishesStep(m: map<int, Request>, category: set<ListenerId>,
                            all: set<ListenerId>, e: int)
    requires m != map[]
    ensures var k := Least(m.Keys);
      |m - {k}| < |m|
      && RequestFinishes(m, category, all, e)
         == FanOut(category, all, m[k].listener, RequestFinish(m[k], e))
            + RequestFinishes(m - {k}, category, all, e)
  {
    var k := Least(m.Keys);
    assert (m - {k}).Keys == m.Keys - {k};
  }

  /** One step of TransferFinishes: the least key first, then the rest of the map, which is smaller. */
  lemma TransferFinishesStep(m: map<int, Transfer>, category: set<ListenerId>,
                             all: set<ListenerId>, e: int)
    requires m != map[]
    ensures var k := Least(m.Keys);
      |m - {k}| < |m|
      && TransferFinishes(m, category, all, e)
         == FanOut(category, all, m[k].listener, TransferFinish(m[k], e))
            + TransferFinishes(m - {k}, category, all, e)
  {
    var k := Least(m.Keys);
    assert (m - {k}).Keys == m.Keys - {k};
  }

  /** Every notice of RequestFinishes reports the finish, with `e`, of a request the map holds. */
  lemma {:induction false} RequestFinishesSound(m: map<int, Request>, category: set<ListenerId>,
                                                all: set<ListenerId>, e: int)
    ensures forall n :: n in RequestFinishes(m, category, all, e) ==>
      n.event.RequestFinish? && n.event.error == e && n.event.request in m.Values
    decreases |m|
  {
    if m != map[] {
      var k := Least(m.Keys);
      var ev := RequestFinish(m[k], e);
      RequestFinishesStep(m, category, all, e);
      RequestFinishesSound(m - {k}, category, all, e);
      FanOutShape(category, all, m[k].listener, ev);
      forall n | n in RequestFinishes(m, category, all, e)
        ensures n.event.RequestFinish? && n.event.error == e && n.event.request in m.Values
      {
        if n !in FanOut(category, all, m[k].listener, ev) {
          assert n in RequestFinishes(m - {k}, category, all, e);
          var j := KeyOf(m - {k}, n.event.request);
          assert m[j] == n.event.request;
        }
      }
    }
  }

  /** RequestFinishes tells every general listener of the finish of every request the map holds. */
  lemma {:induction false} RequestFinishesComplete(m: map<int, Request>, category: set<ListenerId>,
                                                   all: set<ListenerId>, e: int)
    ensures forall k, l :: k in m && l in all ==>
      Notice(l, RequestFinish(m[k], e)) in RequestFinishes(m, category, all, e)
    decreases |m|
  {
    if m != map[] {
      var least := Least(m.Keys);
      var ev := RequestFinish(m[least], e);
      RequestFinishesStep(m, category, all, e);
      RequestFinishesComplete(m - {least}, category, all, e);
      FanOutShape(category, all, m[least].listener, ev);
      var f := FanOut(category, all, m[least].listener, ev);
      forall k, l | k in m && l in all
        ensures Notice(l, RequestFinish(m[k], e)) in RequestFinishes(m, category, all, e)
      {
        if k == least {
          assert Notice(l, ev) in f[|category|..|category| + |all|];
          assert Notice(l, ev) in f;
        } else {
          assert k in m - {least} && (m - {least})[k] == m[k];
        }
      }
    }
  }

  /** Every notice of TransferFinishes reports the finish, with `e`, of a transfer the map holds. */
  lemma {:induction false} TransferFinishesSound(m: map<int, Transfer>, category: set<ListenerId>,
                                                 all: set<ListenerId>, e: int)
    ensures forall n :: n in TransferFinishes(m, category, all, e) ==>
      n.event.TransferFinish? && n.event.error == e && n.event.transfer in m.Values
    decreases |m|
  {
    if m != map[] {
      var k := Least(m.Keys);
      var ev := TransferFinish(m[k], e);
      TransferFinishesStep(m, category, all, e);
      TransferFinishesSound(m - {k}, category, all, e);
      FanOutShape(category, all, m[k].listener, ev);
      forall n | n in TransferFinishes(m, category, all, e)
        ensures n.event.TransferFinish? && n.event.error == e && n.event.transfer in m.Values
      {
        if n !in FanOut(category, all, m[k].listener, ev) {
          assert n in TransferFinishes(m - {k}, category, all, e);
          var j := KeyOf(m - {k}, n.event.transfer);
          assert m[j] == n.event.transfer;
        }
      }
    }
  }

  /** TransferFinishes tells every general listener of the finish of every transfer the map holds. */
  lemma {:induction false} TransferFinishesComplete(m: map<int, Transfer>, category: set<ListenerId>,
                                                    all: set<ListenerId>, e: int)
    ensures forall k, l :: k in m && l in all ==>
      Notice(l, TransferFinish(m[k], e)) in TransferFinishes(m, category, all, e)
    decreases |m|
  {
    if m != map[] {
      var least := Least(m.Keys);
      var ev := TransferFinish(m[least], e);
      TransferFinishesStep(m, category, all, e);
      TransferFinishesComplete(m - {least}, category, all, e);
      FanOutShape(category, all, m[least].listener, ev);
      var f := FanOut(category, all, m[least].listener, ev);
      forall k, l | k in m && l in all
        ensures Notice(l, TransferFinish(m[k], e)) in TransferFinishes(m, category, all, e)
      {
        if k == least {
          assert Notice(l, ev) in f[|category|..|category| + |all|];
          assert Notice(l, ev) in f;
        } else {
          assert k in m - {least} && (m - {least})[k] == m[k];
        }
      }
    }
  }

  /** Adding a fresh key and then removing it gives back the map. */
  lemma AddThenRemove<T>(m: map<int, T>, k: int, v: T)
    requires k !in m
    ensures m[k := v] - {k} == m
  {
  }

  /** A key under which a map holds a given value. */
  lemma KeyOf<T>(m: map<int, T>, v: T) returns (k: int)
    requires v in m.Values
    ensures k in m && m[k] == v
  {
    if forall j :: j in m ==> m[j] != v {
      assert false;
    }
    k :| k in m && m[k] == v;
  }

  /**
   * Moving an entry to a key not yet used keeps the number of entries and the set of
   * records held: a re-tagged request is neither lost nor duplicated.
   */
  lemma MoveKeepsEntries<T>(m: map<int, T>, from: int, to: int)
    requires from in m && to !in m
    ensures |(m - {from})[to := m[from]]| == |m|
    ensures (m - {from})[to := m[from]].Values == m.Values
  {
    var r := (m - {from})[to := m[from]];
    forall v | v in m.Values ensures v in r.Values {
      var k := KeyOf(m, v);
      if k == from {
        assert r[to] == v;
      } else {
        assert k in r;
        assert r[k] == v;
      }
    }
    forall v | v in r.Values ensures v in m.Values {
      var k := KeyOf(r, v);
      if k == to {
        assert m[from] == v;
      } else {
        assert m[k] == v;
      }
    }
  }

  class MegaApi {
    var listeners: set<ListenerId>
    var requestListeners: set<ListenerId>
    var transferListeners: set<ListenerId>
    var globalListeners: set<ListenerId>

    var requestQueue: seq<Request>
    var transferQueue: seq<Transfer>
    var requestMap: map<int, Request>
    var transferMap: map<int, Transfer>
    var currentTransfer: Option<Transfer>

    var reqtag: int
    var restag: int

    var maxRetries: int
    var pausetime: int
    var pendingUploads: int
    var pendingDownloads: int
    var totalUploads: int
    var totalDownloads: int

    var trace: seq<Notice>
    var commands: seq<Command>

    /** The queued transfers, as a set. */
    function Queued(): set<Transfer>
      reads this`transferQueue
    {
      set t | t in transferQueue
    }

    /** The queued requests, as a set. */
    function Pending(): set<Request>
      reads this`requestQueue
    {
      set r | r in requestQueue
    }

    /**
     * The bookkeeping invariant. Every tag in requestMap has been handed out. Every
     * tracked transfer knows the engine transfer it is keyed by, so fireOnTransferFinish
     * erases its own entry. The transfer waiting for transfer_added and the queued ones
     * are not tracked yet, the former is not queued, and no transfer is queued twice.
     */
    ghost predicate Valid()
      reads this`requestMap, this`reqtag, this`transferMap, this`transferQueue, this`currentTransfer
      reads transferMap.Values`transfer
    {
      (forall k :: k in requestMap ==> k <= reqtag)
      && (forall k :: k in transferMap ==> transferMap[k].transfer == Some(k))
      && (currentTransfer.Some? ==>
            currentTransfer.value !in transferMap.Values && currentTransfer.value !in transferQueue)
      && (forall i :: 0 <= i < |transferQueue| ==> transferQueue[i] !in transferMap.Values)
      && (forall i, j :: 0 <= i < j < |transferQueue| ==> transferQueue[i] != transferQueue[j])
    }

    /** Two keys of transferMap never share a record. */
    lemma TrackedDistinct(a: int, b: int)
      requires Valid() && a in transferMap && b in transferMap && a != b
      ensures transferMap[a] != transferMap[b]
    {
    }

    /** MegaApi(listener, basePath): empty queues and maps, counters at zero, three retries per transfer. */
    constructor (listener: Option<ListenerId>, reqtag: int)
      ensures Valid()
      ensures listeners == (if listener.Some? then {listener.value} else {})
      ensures requestListeners == {} && transferListeners == {} && globalListeners == {}
      ensures requestQueue == [] && transferQueue == [] && requestMap == map[] && transferMap == map[]
      ensures currentTransfer.None? && this.reqtag == reqtag
      ensures maxRetries == 3 && pausetime == 0
      ensures pendingUploads == 0 && pendingDownloads == 0 && totalUploads == 0 && totalDownloads == 0
      ensures trace == [] && commands == []
    {
      listeners := if listener.Some? then {listener.value} else {};
      requestListeners, transferListeners, globalListeners := {}, {}, {};
      requestQueue, transferQueue := [], [];
      requestMap, transferMap := map[], map[];
      currentTransfer := None;
      this.reqtag := reqtag;
      restag := 0;
      maxRetries, pausetime := 3, 0;
      pendingUploads, pendingDownloads, totalUploads, totalDownloads := 0, 0, 0, 0;
      trace, commands := [], [];
    }

    /** The listener set of a category. */
    function ListenersOf(c: Category): set<ListenerId>
      reads this
    {
      match c
      case AllEvents => listeners
      case RequestEvents => requestListeners
      case TransferEvents => transferListeners
      case GlobalEvents => globalListeners
    }

    /** addListener, addRequestListener, addTransferListener, addGlobalListener: NULL is ignored. */
    method AddListener(c: Category, l: Option<ListenerId>)
      modifies this`listeners, this`requestListeners, this`transferListeners, this`globalListeners
      ensures forall d :: ListenersOf(d) == if d == c && l.Some? then old(ListenersOf(d)) + {l.value} else old(ListenersOf(d))
    {
      if l.None? {
        return;
      }
      match c
      case AllEvents => listeners := listeners + {l.value};
      case RequestEvents => requestListeners := requestListeners + {l.value};
      case TransferEvents => transferListeners := transferListeners + {l.value};
      case GlobalEvents => globalListeners := globalListeners + {l.value};
    }

    /** removeListener and its per-category variants: NULL is ignored. */
    method RemoveListener(c: Category, l: Option<ListenerId>)
      modifies this`listeners, this`requestListeners, this`transferListeners, this`globalListeners
      ensures forall d :: ListenersOf(d) == if d == c && l.Some? then old(ListenersOf(d)) - {l.value} else old(ListenersOf(d))
    {
      if l.None? {
        return;
      }
      match c
      case AllEvents => listeners := listeners - {l.value};
      case RequestEvents => requestListeners := requestListeners - {l.value};
      case TransferEvents => transferListeners := transferListeners - {l.value};
      case GlobalEvents => globalListeners := globalListeners - {l.value};
    }

    /** The notices of a request event: request listeners, general listeners, then the request's own. */
    function RequestNotices(req: Request, ev: Event): seq<Notice>
      reads this
    {
      FanOut(requestListeners, listeners, req.listener, ev)
    }

    /** The notices of a transfer event: transfer listeners, general listeners, then the transfer's own. */
    function TransferNotices(tr: Transfer, ev: Event): seq<Notice>
      reads this
    {
      FanOut(transferListeners, listeners, tr.listener, ev)
    }

    /** Delivers `ev` to every listener of a set, in the set's iteration order. */
    method Notify(ls: set<ListenerId>, ev: Event)
      modifies this`trace
      ensures trace == old(trace) + Deliver(ls, ev)
    {
      var rest := ls;
      while rest != {}
        invariant trace + Deliver(rest, ev) == old(trace) + Deliver(ls, ev)
        decreases |rest|
      {
        var l := Least(rest);
        assert rest - {l} < rest;
        Concat(trace, [Notice(l, ev)], Deliver(rest - {l}, ev));
        trace := trace + [Notice(l, ev)];
        rest := rest - {l};
      }
    }

    /** The loops of a fireOn* method: a category's listeners, the general ones, then the caller's own. */
    method Emit(category: set<ListenerId>, own: Option<ListenerId>, ev: Event)
      modifies this`trace
      ensures trace == old(trace) + FanOut(category, listeners, own, ev)
    {
      ghost var before := trace;
      Notify(category, ev);
      ghost var mid := Deliver(category, ev);
      Notify(listeners, ev);
      var tail: seq<Notice> := if own.Some? then [Notice(own.value, ev)] else [];
      trace := trace + tail;
      assert trace == before + mid + Deliver(listeners, ev) + tail;
    }

    /** fireOnRequestStart. */
    method FireOnRequestStart(req: Request)
      modifies this`trace
      ensures trace == old(trace) + RequestNotices(req, RequestStart(req))
    {
      Emit(requestListeners, req.listener, RequestStart(req));
    }

    /**
     * fireOnRequestFinish: the notices, then the entry of the tag the engine is answering
     * (`restag`) is erased, whichever request it holds; the record is released.
     */
    method FireOnRequestFinish(req: Request, e: int)
      modifies this`trace, this`requestMap
      ensures trace == old(trace) + RequestNotices(req, RequestFinish(req, e))
      ensures requestMap == old(requestMap) - {restag}
    {
      Emit(requestListeners, req.listener, RequestFinish(req, e));
      requestMap := requestMap - {restag};
    }

    /** fireOnRequestTemporaryError: the notices only; the request stays mapped. */
    method FireOnRequestTemporaryError(req: Request, e: int)
      modifies this`trace
      ensures trace == old(trace) + RequestNotices(req, RequestTemporaryError(req, e))
    {
      Emit(requestListeners, req.listener, RequestTemporaryError(req, e));
    }

    /** fireOnTransferStart. */
    method FireOnTransferStart(tr: Transfer)
      modifies this`trace
      ensures trace == old(trace) + TransferNotices(tr, TransferStart(tr))
    {
      Emit(transferListeners, tr.listener, TransferStart(tr));
    }

    /** fireOnTransferUpdate. */
    method FireOnTransferUpdate(tr: Transfer)
      modifies this`trace
      ensures trace == old(trace) + TransferNotices(tr, TransferUpdate(tr))
    {
      Emit(transferListeners, tr.listener, TransferUpdate(tr));
    }

    /** fireOnTransferTemporaryError: the notices only; the transfer stays tracked. */
    method FireOnTransferTemporaryError(tr: Transfer, e: int)
      modifies this`trace
      ensures trace == old(trace) + TransferNotices(tr, TransferTemporaryError(tr, e))
    {
      Emit(transferListeners, tr.listener, TransferTemporaryError(tr, e));
    }

    /**
     * fireOnTransferFinish: the notices, then the entry keyed by the record's engine
     * transfer is erased (none for a transfer the engine never took); the record is released.
     */
    method FireOnTransferFinish(tr: Transfer, e: int)
      modifies this`trace, this`transferMap
      ensures trace == old(trace) + TransferNotices(tr, TransferFinish(tr, e))
      ensures transferMap == if tr.transfer.Some? then old(transferMap) - {tr.transfer.value} else old(transferMap)
    {
      Emit(transferListeners, tr.listener, TransferFinish(tr, e));
      if tr.transfer.Some? {
        transferMap := transferMap - {tr.transfer.value};
      }
    }

    /** fireOnUsersUpdate, fireOnNodesUpdate and fireOnReloadNeeded: global listeners, then general ones. */
    method FireOnGlobal(ev: Event)
      requires ev == UsersUpdate || ev == NodesUpdate || ev == ReloadNeeded
      modifies this`trace
      ensures trace == old(trace) + Deliver(globalListeners, ev) + Deliver(listeners, ev)
    {
      Notify(globalListeners, ev);
      Notify(listeners, ev);
    }

    /** fireOnSyncStateChanged: general listeners only. */
    method FireOnSyncStateChanged()
      modifies this`trace
      ensures trace == old(trace) + Deliver(listeners, SyncStateChanged)
    {
      Notify(listeners, SyncStateChanged);
    }

    /** client->nextreqtag(): a tag never handed out before. */
    method NextReqTag() returns (tag: int)
      modifies this`reqtag
      ensures tag == reqtag == old(reqtag) + 1
    {
      reqtag := reqtag + 1;
      tag := reqtag;
    }

    /** Requests the switch handles without a special branch. */
    predicate Ordinary(req: Request, view: EngineView)
      reads req`nodeHandle, req`parentHandle
    {
      req.kind != Logout && req.kind != PauseTransfers && !SameParentMove(req, view)
    }

    /** Finishes every mapped request with `e`, lowest tag first, each with `restag` set to its tag. */
    method FinishAllRequests(e: int)
      modifies this`requestMap, this`restag, this`trace
      ensures requestMap == map[]
      ensures trace == old(trace) + RequestFinishes(old(requestMap), requestListeners, listeners, e)
    {
      while requestMap != map[]
        invariant old(trace) + RequestFinishes(old(requestMap), requestListeners, listeners, e)
               == trace + RequestFinishes(requestMap, requestListeners, listeners, e)
        decreases |requestMap|
      {
        ghost var m := requestMap;
        ghost var t := trace;
        var k := Least(requestMap.Keys);
        RequestFinishesStep(m, requestListeners, listeners, e);
        Concat(t, FanOut(requestListeners, listeners, m[k].listener, RequestFinish(m[k], e)),
               RequestFinishes(m - {k}, requestListeners, listeners, e));
        restag := k;
        FireOnRequestFinish(requestMap[k], e);
      }
    }

    /** Finishes every tracked transfer with `e`, lowest key first; each finish erases its own entry. */
    method FinishAllTransfers(e: int)
      requires forall k :: k in transferMap ==> transferMap[k].transfer == Some(k)
      modifies this`transferMap, this`trace
      ensures transferMap == map[]
      ensures trace == old(trace) + TransferFinishes(old(transferMap), transferListeners, listeners, e)
    {
      while transferMap != map[]
        invariant forall k :: k in transferMap ==> transferMap[k].transfer == Some(k)
        invariant old(trace) + TransferFinishes(old(transferMap), transferListeners, listeners, e)
               == trace + TransferFinishes(transferMap, transferListeners, listeners, e)
        decreases |transferMap|
      {
        ghost var m := transferMap;
        ghost var t := trace;
        var k := Least(transferMap.Keys);
        TransferFinishesStep(m, transferListeners, listeners, e);
        Concat(t, FanOut(transferListeners, listeners, m[k].listener, TransferFinish(m[k], e)),
               TransferFinishes(m - {k}, transferListeners, listeners, e));
        FireOnTransferFinish(transferMap[k], e);
      }
    }

    /**
     * The loops of the logout branch: every request mapped under a tag other than `tag`
     * finishes with API_EACCESS, then every tracked transfer; both maps end empty.
     */
    method AbortAll(tag: int)
      requires forall k :: k in transferMap ==> transferMap[k].transfer == Some(k)
      modifies this`requestMap, this`transferMap, this`restag, this`trace
      ensures requestMap == map[] && transferMap == map[]
      ensures trace == old(trace)
        + RequestFinishes(old(requestMap) - {tag}, requestListeners, listeners, API_EACCESS)
        + TransferFinishes(old(transferMap), transferListeners, listeners, API_EACCESS)
    {
      requestMap := requestMap - {tag};
      FinishAllRequests(API_EACCESS);
      FinishAllTransfers(API_EACCESS);
    }

    /**
     * The logout branch: every other mapped request finishes with API_EACCESS, then every
     * tracked transfer, then the engine logs out (the command comes from Outcome) and the
     * logout request itself finishes with API_OK under its own tag.
     */
    method LogoutBranch(tag: int, req: Request)
      requires Valid() && tag in requestMap && requestMap[tag] == req
      modifies this`requestMap, this`transferMap, this`restag, this`trace
      ensures Valid()
      ensures requestMap == map[] && transferMap == map[] && restag == tag
      ensures trace == old(trace)
        + RequestFinishes(old(requestMap) - {tag}, requestListeners, listeners, API_EACCESS)
        + TransferFinishes(old(transferMap), transferListeners, listeners, API_EACCESS)
        + RequestNotices(req, RequestFinish(req, API_OK))
    {
      AbortAll(tag);
      requestMap := map[tag := req];
      restag := tag;
      FireOnRequestFinish(req, API_OK);
    }

    /**
     * Resuming: every tracked transfer that has started has its start time moved later by
     * the time spent paused, in increasing key order; transfers not yet started keep 0.
     */
    method ShiftStartTimes(now: int)
      requires Valid()
      modifies transferMap.Values`startTime
      ensures Valid()
      ensures forall k :: k in transferMap ==>
        transferMap[k].startTime == ShiftStart(old(transferMap[k].startTime), pausetime, now)
    {
      var rest := transferMap.Keys;
      while rest != {}
        invariant Valid()
        invariant rest <= transferMap.Keys
        invariant forall k :: k in transferMap ==>
          transferMap[k].startTime == (if k in rest then old(transferMap[k].startTime)
                                       else ShiftStart(old(transferMap[k].startTime), pausetime, now))
        decreases |rest|
      {
        var k := Least(rest);
        var tr := transferMap[k];
        var start := tr.startTime;
        if start != 0 {
          var paused := now - pausetime;
          tr.startTime := start + paused;
        }
        rest := rest - {k};
      }
    }

    /**
     * The pause/resume branch: pausing records the clock unless already paused; resuming
     * while paused shifts the start times and clears the pause; the request then
     * finishes with API_OK under its own tag.
     */
    method PauseBranch(tag: int, req: Request, now: int)
      requires Valid() && tag in requestMap && requestMap[tag] == req
      modifies this`pausetime, this`requestMap, this`restag, this`trace, transferMap.Values`startTime
      ensures Valid()
      ensures req.flag ==> pausetime == if old(pausetime) == 0 then now else old(pausetime)
      ensures !req.flag ==> pausetime == 0
      ensures forall k :: k in transferMap ==>
        transferMap[k].startTime == (if !req.flag && old(pausetime) != 0
                                     then ShiftStart(old(transferMap[k].startTime), old(pausetime), now)
                                     else old(transferMap[k].startTime))
      ensures requestMap == old(requestMap) - {tag} && restag == tag
      ensures trace == old(trace) + RequestNotices(req, RequestFinish(req, API_OK))
    {
      if req.flag {
        if pausetime == 0 {
          pausetime := now;
        }
      } else if pausetime != 0 {
        ShiftStartTimes(now);
        pausetime := 0;
      }
      restag := tag;
      FireOnRequestFinish(req, API_OK);
    }

    /** The head of sendPendingRequests's loop body: a fresh tag, the request mapped under it, its start notices. */
    method Register(req: Request) returns (tag: int)
      requires Valid()
      modifies this`reqtag, this`requestMap, this`trace
      ensures Valid()
      ensures tag == reqtag == old(reqtag) + 1 && tag !in old(requestMap)
      ensures requestMap == old(requestMap)[tag := req]
      ensures trace == old(trace) + RequestNotices(req, RequestStart(req))
    {
      tag := NextReqTag();
      requestMap := requestMap[tag := req];
      FireOnRequestStart(req);
    }

    /**
     * The end of the dispatch of a request other than logout and pause/resume: the
     * account-details branch records how many replies to await; the same-parent move
     * finishes at once, without setting `restag`; any other request finishes under its
     * own tag when the switch ended with an error, and otherwise stays mapped.
     */
    method Settle(tag: int, req: Request, view: EngineView, e: int)
      requires Valid() && tag in requestMap && requestMap[tag] == req && tag <= reqtag
      requires req.kind != Logout && req.kind != PauseTransfers
      modifies this`requestMap, this`restag, this`trace, req`numDetails
      ensures Valid()
      ensures req.numDetails
           == if req.kind == AccountDetails then DetailsReplies(old(req.numDetails)) else old(req.numDetails)
      ensures SameParentMove(req, view) ==>
        && requestMap == old(requestMap) - {old(restag)} && restag == old(restag)
        && trace == old(trace) + RequestNotices(req, RequestFinish(req, API_OK))
      ensures !SameParentMove(req, view) && e != API_OK ==>
        && requestMap == old(requestMap) - {tag} && restag == tag
        && trace == old(trace) + RequestNotices(req, RequestFinish(req, e))
      ensures !SameParentMove(req, view) && e == API_OK ==>
        requestMap == old(requestMap) && restag == old(restag) && trace == old(trace)
    {
      if req.kind == AccountDetails {
        req.numDetails := DetailsReplies(req.numDetails);
      }
      if SameParentMove(req, view) {
        FireOnRequestFinish(req, API_OK);
      } else if e != API_OK {
        restag := tag;
        FireOnRequestFinish(req, e);
      }
    }

    /** The switch's bookkeeping for a registered request, by kind. */
    method Conclude(tag: int, req: Request, view: EngineView, e: int)
      requires Valid() && tag in requestMap && requestMap[tag] == req && tag <= reqtag
      modifies this`requestMap, this`transferMap, this`restag, this`trace
      modifies this`pausetime, req`numDetails, transferMap.Values`startTime
      ensures Valid() && requestMap.Keys <= old(requestMap).Keys
      ensures req.numDetails
           == if req.kind == AccountDetails then DetailsReplies(old(req.numDetails)) else old(req.numDetails)
      ensures req.kind == Logout ==>
        && requestMap == map[] && transferMap == map[] && restag == tag
        && trace == old(trace)
             + RequestFinishes(old(requestMap) - {tag}, requestListeners, listeners, API_EACCESS)
             + TransferFinishes(old(transferMap), transferListeners, listeners, API_EACCESS)
             + RequestNotices(req, RequestFinish(req, API_OK))
      ensures req.kind != Logout ==> transferMap == old(transferMap)
      ensures req.kind == PauseTransfers ==>
        && requestMap == old(requestMap) - {tag} && restag == tag
        && trace == old(trace) + RequestNotices(req, RequestFinish(req, API_OK))
      ensures req.kind == PauseTransfers && req.flag ==>
        pausetime == if old(pausetime) == 0 then view.now else old(pausetime)
      ensures req.kind == PauseTransfers && !req.flag ==> pausetime == 0
      ensures req.kind != PauseTransfers ==> pausetime == old(pausetime)
      ensures forall k :: k in transferMap ==>
        transferMap[k].startTime == (if req.kind == PauseTransfers && !req.flag && old(pausetime) != 0
                                     then ShiftStart(old(transferMap[k].startTime), old(pausetime), view.now)
                                     else old(transferMap[k].startTime))
      ensures SameParentMove(req, view) ==>
        && requestMap == old(requestMap) - {old(restag)} && restag == old(restag)
        && trace == old(trace) + RequestNotices(req, RequestFinish(req, API_OK))
      ensures Ordinary(req, view) && e != API_OK ==>
        && requestMap == old(requestMap) - {tag} && restag == tag
        && trace == old(trace) + RequestNotices(req, RequestFinish(req, e))
      ensures Ordinary(req, view) && e == API_OK ==>
        requestMap == old(requestMap) && restag == old(restag) && trace == old(trace)
    {
      if req.kind == Logout {
        LogoutBranch(tag, req);
      } else if req.kind == PauseTransfers {
        PauseBranch(tag, req, view.now);
      } else {
        Settle(tag, req, view, e);
      }
    }

    /**
     * Registration and bookkeeping of a popped request whose switch ended with `e`: the
     * start notices always come first. Logout then finishes every other request and every
     * tracked transfer with API_EACCESS and itself with API_OK; pause/resume finishes at
     * once with API_OK; a move within the same parent finishes with API_OK under the tag
     * the engine last answered. An ordinary request finishes at once with `e` when it is
     * an error, and otherwise stays mapped under its new tag until the engine answers.
     */
    method Process(req: Request, view: EngineView, e: int)
      requires Valid()
      modifies this`reqtag, this`requestMap, this`transferMap, this`restag, this`trace
      modifies this`pausetime, req`numDetails, transferMap.Values`startTime
      ensures Valid() && reqtag == old(reqtag) + 1 && reqtag !in old(requestMap)
      ensures requestMap.Keys <= old(requestMap).Keys + {reqtag}
      ensures transferMap.Values <= old(transferMap.Values)
      ensures old(trace) + RequestNotices(req, RequestStart(req)) <= trace
      ensures Ordinary(req, view) && e != API_OK ==>
        && requestMap == old(requestMap) && restag == reqtag
        && trace == old(trace) + RequestNotices(req, RequestStart(req)) + RequestNotices(req, RequestFinish(req, e))
      ensures Ordinary(req, view) && e == API_OK ==>
        && requestMap == old(requestMap)[reqtag := req] && restag == old(restag)
        && trace == old(trace) + RequestNotices(req, RequestStart(req))
      ensures req.kind == Logout ==>
        && requestMap == map[] && transferMap == map[] && restag == reqtag
        && trace == old(trace) + RequestNotices(req, RequestStart(req))
             + RequestFinishes(old(requestMap), requestListeners, listeners, API_EACCESS)
             + TransferFinishes(old(transferMap), transferListeners, listeners, API_EACCESS)
             + RequestNotices(req, RequestFinish(req, API_OK))
      ensures req.kind != Logout ==> transferMap == old(transferMap)
      ensures req.kind == PauseTransfers ==>
        && requestMap == old(requestMap) && restag == reqtag
        && trace == old(trace) + RequestNotices(req, RequestStart(req))
             + RequestNotices(req, RequestFinish(req, API_OK))
      ensures req.kind == PauseTransfers && req.flag ==>
        pausetime == if old(pausetime) == 0 then view.now else old(pausetime)
      ensures req.kind == PauseTransfers && !req.flag ==> pausetime == 0
      ensures req.kind != PauseTransfers ==> pausetime == old(pausetime)
      ensures forall k :: k in transferMap ==>
        transferMap[k].startTime == (if req.kind == PauseTransfers && !req.flag && old(pausetime) != 0
                                     then ShiftStart(old(transferMap[k].startTime), old(pausetime), view.now)
                                     else old(transferMap[k].startTime))
      ensures req.numDetails
           == if req.kind == AccountDetails then DetailsReplies(old(req.numDetails)) else old(req.numDetails)
      ensures SameParentMove(req, view) ==>
        && requestMap == old(requestMap)[reqtag := req] - {old(restag)} && restag == old(restag)
        && trace == old(trace) + RequestNotices(req, RequestStart(req))
             + RequestNotices(req, RequestFinish(req, API_OK))
    {
      var tag := Register(req);
      AddThenRemove(old(requestMap), tag, req);
      Conclude(tag, req, view, e);
    }

    /**
     * The body of sendPendingRequests's loop for one popped request: the switch's verdict
     * (Outcome) hands its commands to the engine, and the request is processed with the
     * switch's error.
     */
    method DispatchRequest(req: Request, view: EngineView, rep: Replies)
      requires Valid()
      modifies this`reqtag, this`requestMap, this`transferMap, this`restag, this`trace
      modifies this`commands, this`pausetime, req`numDetails, transferMap.Values`startTime
      ensures Valid() && reqtag == old(reqtag) + 1 && reqtag !in old(requestMap)
      ensures requestMap.Keys <= old(requestMap).Keys + {reqtag}
      ensures transferMap.Values <= old(transferMap.Values)
      ensures commands == old(commands) + old(Outcome(req, view, rep)).commands
      ensures old(trace) + RequestNotices(req, RequestStart(req)) <= trace
      ensures Ordinary(req, view) && old(Outcome(req, view, rep)).error != API_OK ==>
        && requestMap == old(requestMap) && restag == reqtag
        && trace == old(trace) + RequestNotices(req, RequestStart(req))
             + RequestNotices(req, RequestFinish(req, old(Outcome(req, view, rep)).error))
      ensures Ordinary(req, view) && old(Outcome(req, view, rep)).error == API_OK ==>
        && requestMap == old(requestMap)[reqtag := req] && restag == old(restag)
        && trace == old(trace) + RequestNotices(req, RequestStart(req))
      ensures req.kind == Logout ==>
        && requestMap == map[] && transferMap == map[] && restag == reqtag
        && trace == old(trace) + RequestNotices(req, RequestStart(req))
             + RequestFinishes(old(requestMap), requestListeners, listeners, API_EACCESS)
             + TransferFinishes(old(transferMap), transferListeners, listeners, API_EACCESS)
             + RequestNotices(req, RequestFinish(req, API_OK))
      ensures req.kind != Logout ==> transferMap == old(transferMap)
      ensures req.kind == PauseTransfers ==>
        && requestMap == old(requestMap) && restag == reqtag
        && trace == old(trace) + RequestNotices(req, RequestStart(req))
             + RequestNotices(req, RequestFinish(req, API_OK))
      ensures req.kind == PauseTransfers && req.flag ==>
        pausetime == if old(pausetime) == 0 then view.now else old(pausetime)
      ensures req.kind == PauseTransfers && !req.flag ==> pausetime == 0
      ensures req.kind != PauseTransfers ==> pausetime == old(pausetime)
      ensures forall k :: k in transferMap ==>
        transferMap[k].startTime == (if req.kind == PauseTransfers && !req.flag && old(pausetime) != 0
                                     then ShiftStart(old(transferMap[k].startTime), old(pausetime), view.now)
                                     else old(transferMap[k].startTime))
      ensures req.numDetails
           == if req.kind == AccountDetails then DetailsReplies(old(req.numDetails)) else old(req.numDetails)
      ensures SameParentMove(req, view) ==>
        && requestMap == old(requestMap)[reqtag := req] - {old(restag)} && restag == old(restag)
        && trace == old(trace) + RequestNotices(req, RequestStart(req))
             + RequestNotices(req, RequestFinish(req, API_OK))
    {
      var step := Outcome(req, view, rep);
      commands := commands + step.commands;
      Process(req, view, step.error);
    }

    /**
     * sendPendingRequests: pops every queued request and dispatches it, the k-th with the
     * engine view and replies it meets. Every request gets a tag handed out by this call.
     */
    method SendPendingRequests(views: seq<EngineView>, replies: seq<Replies>)
      requires Valid() && |views| == |requestQueue| && |replies| == |requestQueue|
      modifies this`requestQueue, this`reqtag, this`requestMap, this`transferMap, this`restag
      modifies this`trace, this`commands, this`pausetime
      modifies Pending()`numDetails, transferMap.Values`startTime
      ensures Valid() && requestQueue == []
      ensures reqtag == old(reqtag) + |old(requestQueue)|
      ensures forall k :: k in requestMap && k !in old(requestMap) ==> old(reqtag) < k <= reqtag
      ensures old(trace) <= trace && old(commands) <= commands
    {
      var i := 0;
      while requestQueue != []
        invariant Valid() && 0 <= i <= |views|
        invariant requestQueue == old(requestQueue)[i..]
        invariant reqtag == old(reqtag) + i
        invariant forall k :: k in requestMap && k !in old(requestMap) ==> old(reqtag) < k <= reqtag
        invariant transferMap.Values <= old(transferMap.Values)
        invariant old(trace) <= trace && old(commands) <= commands
        decreases |requestQueue|
      {
        SendNextRequest(views[i], replies[i]);
        i := i + 1;
      }
    }

    /** One iteration of sendPendingRequests: the front request is popped and dispatched under the next tag. */
    method SendNextRequest(view: EngineView, rep: Replies)
      requires Valid() && requestQueue != []
      modifies this`requestQueue, this`reqtag, this`requestMap, this`transferMap, this`restag
      modifies this`trace, this`commands, this`pausetime
      modifies Pending()`numDetails, transferMap.Values`startTime
      ensures Valid() && requestQueue == old(requestQueue)[1..] && reqtag == old(reqtag) + 1
      ensures forall k :: k in requestMap && k !in old(requestMap) ==> k == reqtag
      ensures transferMap.Values <= old(transferMap.Values)
      ensures old(trace) <= trace && old(commands) <= commands
    {
      var req := requestQueue[0];
      requestQueue := requestQueue[1..];
      DispatchRequest(req, view, rep);
    }

    /**
     * One iteration of sendPendingTransfers for a popped transfer: a tag is drawn; a
     * rejected transfer finishes with API_EARGS under that tag; an accepted one becomes
     * the transfer awaiting transfer_added and is handed to the engine. A download's path
     * becomes the parent path followed by the file's name.
     */
    method DispatchTransfer(tr: Transfer, view: EngineView) returns (tag: int)
      requires Valid() && tr !in transferMap.Values && tr !in transferQueue
      modifies this`reqtag, this`currentTransfer, this`commands, this`restag, this`trace
      modifies this`transferMap, tr`path, tr`fileName
      ensures Valid()
      ensures tag == reqtag == old(reqtag) + 1
      ensures old(TransferRejected(tr, view)) ==>
        && currentTransfer == old(currentTransfer) && restag == tag && commands == old(commands)
        && trace == old(trace) + TransferNotices(tr, TransferFinish(tr, API_EARGS))
        && transferMap == (if tr.transfer.Some? then old(transferMap) - {tr.transfer.value} else old(transferMap))
        && tr.path == old(tr.path) && tr.fileName == old(tr.fileName)
      ensures !old(TransferRejected(tr, view)) ==>
        && currentTransfer == Some(tr) && restag == old(restag)
        && trace == old(trace) && transferMap == old(transferMap)
      ensures !old(TransferRejected(tr, view)) && tr.kind == UploadType ==>
        && tr.path == old(tr.path) && tr.fileName == old(tr.fileName)
        && commands == old(commands) + [StartXfer(Put, old(tr.path).value, tr.parentHandle)]
      ensures !old(TransferRejected(tr, view)) && tr.kind == DownloadType ==>
        var name := old(DownloadName(tr, view));
        var path := old(tr.parentPath.value) + name;
        && tr.path == Some(path) && tr.fileName == Some(FileNameOf(path))
        && commands == old(commands) + [StartXfer(Get, DownloadDestination(path, name), old(DownloadNode(tr, view)))]
    {
      tag := NextReqTag();
      if TransferRejected(tr, view) {
        restag := tag;
        FireOnTransferFinish(tr, API_EARGS);
        return;
      }
      currentTransfer := Some(tr);
      match tr.kind
      case UploadType =>
        commands := commands + [StartXfer(Put, tr.path.value, tr.parentHandle)];
      case DownloadType =>
        var name := DownloadName(tr, view);
        var node := DownloadNode(tr, view);
        var path := tr.parentPath.value + name;
        tr.SetPath(Some(path));
        commands := commands + [StartXfer(Get, DownloadDestination(path, name), node)];
    }

    /** The part of the facade's state one iteration of sendPendingTransfers changes. */
    function Bookkeeping(): Books
      reads this`trace, this`commands, this`currentTransfer, this`transferMap, this`reqtag, this`restag
      reads this`pendingDownloads, this`pendingUploads, this`totalDownloads, this`totalUploads
    {
      Books(trace, commands, currentTransfer, transferMap, reqtag, restag,
            pendingDownloads, pendingUploads, totalDownloads, totalUploads)
    }

    /** A record whose fields sendPendingTransfers checks are as they were in the earlier state. */
    twostate predicate Untouched(tr: Transfer)
      reads tr
    {
      tr.path == old(tr.path) && tr.parentPath == old(tr.parentPath) && tr.parentHandle == old(tr.parentHandle)
      && tr.nodeHandle == old(tr.nodeHandle)
      && tr.publicNode == old(tr.publicNode) && tr.transfer == old(tr.transfer)
    }

    /**
     * One iteration of sendPendingTransfers with the engine's answer to startxfer: when
     * the engine calls transfer_added before startxfer returns (`added`), the record just
     * put in currentTransfer is adopted at once; otherwise it stays there.
     */
    method HandOff(tr: Transfer, view: EngineView, added: Option<EngineTransfer>)
      requires Valid() && tr !in transferMap.Values && tr !in transferQueue
      modifies this`reqtag, this`currentTransfer, this`commands, this`restag, this`trace, this`transferMap
      modifies this`pendingDownloads, this`pendingUploads, this`totalDownloads, this`totalUploads
      modifies tr`path, tr`fileName, tr`transfer, tr`totalBytes, tr`tag
      ensures Valid()
      ensures Bookkeeping()
           == HandOffStep(old(Bookkeeping()), tr, old(TicketOf(tr, view)), added, view, transferListeners, listeners)
      ensures !old(TransferRejected(tr, view)) && added.Some? ==>
        tr.transfer == Some(added.value.id) && tr.totalBytes == added.value.size && tr.tag == added.value.tag
      ensures old(TransferRejected(tr, view)) || added.None? ==>
        tr.transfer == old(tr.transfer) && tr.totalBytes == old(tr.totalBytes) && tr.tag == old(tr.tag)
    {
      ghost var b := Bookkeeping();
      ghost var k := TicketOf(tr, view);
      var rejected := TransferRejected(tr, view);
      if rejected {
        var tag := DispatchTransfer(tr, view);
        StepRejected(b, tr, k, added, view, transferListeners, listeners);
      } else if added.None? {
        var tag := DispatchTransfer(tr, view);
        StepWaiting(b, tr, k, added, view, transferListeners, listeners);
      } else {
        HandOffAdopted(tr, view, added.value);
      }
    }

    /** The iteration for an accepted transfer that the engine reports through transfer_added during startxfer. */
    method HandOffAdopted(tr: Transfer, view: EngineView, t: EngineTransfer)
      requires Valid() && tr !in transferMap.Values && tr !in transferQueue && !TransferRejected(tr, view)
      modifies this`reqtag, this`currentTransfer, this`commands, this`restag, this`trace, this`transferMap
      modifies this`pendingDownloads, this`pendingUploads, this`totalDownloads, this`totalUploads
      modifies tr`path, tr`fileName, tr`transfer, tr`totalBytes, tr`tag
      ensures Valid()
      ensures Bookkeeping()
           == HandOffStep(old(Bookkeeping()), tr, old(TicketOf(tr, view)), Some(t), view, transferListeners, listeners)
      ensures tr.transfer == Some(t.id) && tr.totalBytes == t.size && tr.tag == t.tag
    {
      ghost var b := Bookkeeping();
      ghost var k := TicketOf(tr, view);
      var tag := DispatchTransfer(tr, view);
      var adopted := TransferAdded(t, view);
      StepAdopted(b, tr, k, Some(t), view, transferListeners, listeners);
    }

    /**
     * The iteration of sendPendingTransfers for the i-th transfer of queue q: it is at
     * the front of the queue, popped and handed off, which extends the pass by one step.
     */
    method Advance(ghost b: Books, ghost q: seq<Transfer>, ghost ks: seq<Ticket>,
                   views: seq<EngineView>, added: seq<Option<EngineTransfer>>, i: int, tr: Transfer)
      requires Valid() && |ks| == |q| && |views| == |q| && |added| == |q|
      requires 0 <= i < |q| && tr == q[i] && transferQueue == q[i..] && TicketOf(tr, views[i]) == ks[i]
      requires Bookkeeping() == Pass(b, q[..i], ks[..i], added[..i], views[..i], transferListeners, listeners)
      modifies this`transferQueue, this`reqtag, this`currentTransfer, this`commands, this`restag
      modifies this`trace, this`transferMap
      modifies this`pendingDownloads, this`pendingUploads, this`totalDownloads, this`totalUploads
      modifies tr`path, tr`fileName, tr`transfer, tr`totalBytes, tr`tag
      ensures Valid() && transferQueue == q[i + 1..]
      ensures forall t :: t in transferQueue ==> t in old(transferQueue) && Untouched(t)
      ensures Bookkeeping()
           == Pass(b, q[..i + 1], ks[..i + 1], added[..i + 1], views[..i + 1], transferListeners, listeners)
    {
      transferQueue := transferQueue[1..];
      assert tr !in transferQueue;
      ghost var before := Bookkeeping();
      HandOff(tr, views[i], added[i]);
      PassAdvance(b, q, ks, added, views, transferListeners, listeners, i, before, Bookkeeping());
    }

    /**
     * sendPendingTransfers: pops every queued transfer and hands it off, iteration i
     * against engine view views[i] and engine answer added[i]; the state afterwards is
     * the pass over the queue as it was, read before the first pop.
     */
    method SendPendingTransfers(views: seq<EngineView>, added: seq<Option<EngineTransfer>>)
      requires Valid() && |views| == |transferQueue| && |added| == |transferQueue|
      modifies this`transferQueue, this`reqtag, this`currentTransfer, this`commands, this`restag
      modifies this`trace, this`transferMap
      modifies this`pendingDownloads, this`pendingUploads, this`totalDownloads, this`totalUploads
      modifies Queued()`path, Queued()`fileName, Queued()`transfer, Queued()`totalBytes, Queued()`tag
      ensures Valid() && transferQueue == []
      ensures Bookkeeping()
           == Pass(old(Bookkeeping()), old(transferQueue), old(Tickets(transferQueue, views)), added, views,
                   transferListeners, listeners)
    {
      ghost var q := transferQueue;
      ghost var ks := Tickets(transferQueue, views);
      var i := 0;
      while transferQueue != []
        invariant Valid() && 0 <= i <= |q| && transferQueue == q[i..]
        invariant forall t :: t in transferQueue ==> Untouched(t)
        invariant Bookkeeping()
               == Pass(old(Bookkeeping()), q[..i], ks[..i], added[..i], views[..i], transferListeners, listeners)
        decreases |transferQueue|
      {
        assert q[i] in old(Queued()) && q[i] in transferQueue;
        assert CheckedOf(q[i]) == old(CheckedOf(q[i]));
        Advance(old(Bookkeeping()), q, ks, views, added, i, transferQueue[0]);
        i := i + 1;
      }
      assert q[..i] == q && ks[..i] == ks && added[..i] == added && views[..i] == views;
    }

    /** The request the engine is answering, as a set: the one mapped under `restag`, if any. */
    function Answered(): set<Request>
      reads this`restag, this`requestMap
    {
      if restag in requestMap then {requestMap[restag]} else {}
    }

    /**
     * The engine callbacks that only finish the request they answer with the error they
     * report: login_result, fetchnodes_result, changepw_result, the failing forms of
     * exportnode_result, openfilelink_result, account_details and ephemeral_result,
     * invite_result, sendsignuplink_result, querysignuplink_result(error),
     * confirmsignuplink_result, putfa_result, request_error, and fa_complete with API_OK.
     * A callback whose tag is no longer mapped is ignored.
     */
    method FinishAnswered(e: int)
      requires Valid()
      modifies this`requestMap, this`trace
      ensures Valid()
      ensures restag !in old(requestMap) ==> requestMap == old(requestMap) && trace == old(trace)
      ensures restag in old(requestMap) ==>
        var req := old(requestMap)[restag];
        && requestMap == old(requestMap) - {restag}
        && trace == old(trace) + RequestNotices(req, RequestFinish(req, e))
    {
      if restag !in requestMap {
        return;
      }
      FireOnRequestFinish(requestMap[restag], e);
    }

    /** setattr_result: only a rename is finished, with the node's handle recorded. */
    method SetattrResult(h: Handle, e: int)
      requires Valid()
      modifies this`requestMap, this`trace, Answered()`nodeHandle
      ensures Valid()
      ensures restag !in old(requestMap) || old(requestMap)[restag].kind != Rename ==>
        requestMap == old(requestMap) && trace == old(trace)
      ensures restag in old(requestMap) && old(requestMap)[restag].kind == Rename ==>
        var req := old(requestMap)[restag];
        && req.nodeHandle == h && requestMap == old(requestMap) - {restag}
        && trace == old(trace) + RequestNotices(req, RequestFinish(req, e))
    {
      if restag !in requestMap {
        return;
      }
      var req := requestMap[restag];
      if req.kind != Rename {
        return;
      }
      req.nodeHandle := h;
      FireOnRequestFinish(req, e);
    }

    /** rename_result and unlink_result: the node's handle is recorded and the request finishes, whatever its type. */
    method NodeResult(h: Handle, e: int)
      requires Valid()
      modifies this`requestMap, this`trace, Answered()`nodeHandle
      ensures Valid()
      ensures restag !in old(requestMap) ==> requestMap == old(requestMap) && trace == old(trace)
      ensures restag in old(requestMap) ==>
        var req := old(requestMap)[restag];
        && req.nodeHandle == h && requestMap == old(requestMap) - {restag}
        && trace == old(trace) + RequestNotices(req, RequestFinish(req, e))
    {
      if restag !in requestMap {
        return;
      }
      var req := requestMap[restag];
      req.nodeHandle := h;
      FireOnRequestFinish(req, e);
    }

    /** share_result(error): an export request waits for exportnode_result; any other finishes. */
    method ShareResult(e: int)
      requires Valid()
      modifies this`requestMap, this`trace
      ensures Valid()
      ensures restag !in old(requestMap) || old(requestMap)[restag].kind == Export ==>
        requestMap == old(requestMap) && trace == old(trace)
      ensures restag in old(requestMap) && old(requestMap)[restag].kind != Export ==>
        var req := old(requestMap)[restag];
        && requestMap == old(requestMap) - {restag}
        && trace == old(trace) + RequestNotices(req, RequestFinish(req, e))
    {
      if restag !in requestMap {
        return;
      }
      var req := requestMap[restag];
      if req.kind == Export {
        return;
      }
      FireOnRequestFinish(req, e);
    }

    /**
     * fa_failed: 1 tells the engine to give up. An unmapped tag gives up silently; past
     * three retries the request finishes with API_EINTERNAL; otherwise it stays mapped
     * and its listeners hear a temporary API_EAGAIN.
     */
    method FaFailed(retries: int) returns (r: int)
      requires Valid()
      modifies this`requestMap, this`trace
      ensures Valid()
      ensures restag !in old(requestMap) ==> r == 1 && requestMap == old(requestMap) && trace == old(trace)
      ensures restag in old(requestMap) && retries > 3 ==>
        var req := old(requestMap)[restag];
        && r == 1 && requestMap == old(requestMap) - {restag}
        && trace == old(trace) + RequestNotices(req, RequestFinish(req, API_EINTERNAL))
      ensures restag in old(requestMap) && retries <= 3 ==>
        var req := old(requestMap)[restag];
        && r == 0 && requestMap == old(requestMap)
        && trace == old(trace) + RequestNotices(req, RequestTemporaryError(req, API_EAGAIN))
    {
      if restag !in requestMap {
        return 1;
      }
      var req := requestMap[restag];
      if retries > 3 {
        FireOnRequestFinish(req, API_EINTERNAL);
        return 1;
      }
      FireOnRequestTemporaryError(req, API_EAGAIN);
      return 0;
    }

    /**
     * account_details (success): one of the replies the request awaits has arrived; the
     * request finishes with API_OK when none is left.
     */
    method AccountDetailsResult()
      requires Valid()
      modifies this`requestMap, this`trace, Answered()`numDetails
      ensures Valid()
      ensures restag !in old(requestMap) ==> requestMap == old(requestMap) && trace == old(trace)
      ensures restag in old(requestMap) ==>
        var req := old(requestMap)[restag];
        && req.numDetails == old(req.numDetails) - 1
        && (req.numDetails == 0 ==>
              requestMap == old(requestMap) - {restag}
              && trace == old(trace) + RequestNotices(req, RequestFinish(req, API_OK)))
        && (req.numDetails != 0 ==> requestMap == old(requestMap) && trace == old(trace))
    {
      if restag !in requestMap {
        return;
      }
      var req := requestMap[restag];
      req.numDetails := req.numDetails - 1;
      if req.numDetails == 0 {
        FireOnRequestFinish(req, API_OK);
      }
    }

    /** The transfer bound to the answered request, as a set: an upload's, if any. */
    function AnsweredTransfer(): set<Transfer>
      reads this`restag, this`requestMap
    {
      if restag in requestMap && requestMap[restag].transfer.Some? then {requestMap[restag].transfer.value}
      else {}
    }

    /**
     * The re-tagging of a request whose callback issues a further engine command: its
     * entry moves from `restag` to the next tag, under which the engine will answer.
     */
    method Retag()
      requires Valid() && restag in requestMap
      modifies this`requestMap, this`reqtag
      ensures Valid()
      ensures reqtag == old(reqtag) + 1 && restag !in requestMap
      ensures requestMap == (old(requestMap) - {restag})[reqtag := old(requestMap)[restag]]
      ensures |requestMap| == |old(requestMap)| && requestMap.Values == old(requestMap).Values
    {
      var req := requestMap[restag];
      requestMap := requestMap - {restag};
      var tag := NextReqTag();
      requestMap := requestMap[tag := req];
      MoveKeepsEntries(old(requestMap), old(restag), tag);
    }

    /**
     * putnodes_result: nodes added to a user's inbox answer nobody. An upload reports the
     * node its file became to its transfer, finishes the transfer and drops the request
     * without a request notice; any other request records the new node (UNDEF if none)
     * and finishes.
     */
    method PutnodesResult(e: int, toUser: bool, uploaded: Option<Handle>, newNode: Option<Handle>)
      requires Valid()
      requires restag in requestMap && requestMap[restag].kind == Upload ==> requestMap[restag].transfer.Some?
      modifies this`requestMap, this`transferMap, this`trace, Answered()`nodeHandle, AnsweredTransfer()`nodeHandle
      ensures Valid()
      ensures toUser || restag !in old(requestMap) ==>
        requestMap == old(requestMap) && transferMap == old(transferMap) && trace == old(trace)
      ensures !toUser && restag in old(requestMap) && old(requestMap)[restag].kind == Upload ==>
        var tr := old(requestMap)[restag].transfer.value;
        && tr.nodeHandle == (if uploaded.Some? then uploaded.value else UNDEF)
        && requestMap == old(requestMap) - {restag}
        && transferMap == (if tr.transfer.Some? then old(transferMap) - {tr.transfer.value} else old(transferMap))
        && trace == old(trace) + TransferNotices(tr, TransferFinish(tr, e))
      ensures !toUser && restag in old(requestMap) && old(requestMap)[restag].kind != Upload ==>
        var req := old(requestMap)[restag];
        && req.nodeHandle == (if newNode.Some? then newNode.value else UNDEF)
        && requestMap == old(requestMap) - {restag} && transferMap == old(transferMap)
        && trace == old(trace) + RequestNotices(req, RequestFinish(req, e))
    {
      if toUser || restag !in requestMap {
        return;
      }
      var req := requestMap[restag];
      if req.kind == Upload {
        var tr := req.transfer.value;
        tr.nodeHandle := if uploaded.Some? then uploaded.value else UNDEF;
        FireOnTransferFinish(tr, e);
        requestMap := requestMap - {restag};
        return;
      }
      req.nodeHandle := if newNode.Some? then newNode.value else UNDEF;
      FireOnRequestFinish(req, e);
    }

    /**
     * exportnode_result: the link of the exported node, built from its public handle and
     * key as encoded by `encode` (base64). A node that is gone finishes the request with
     * API_ENOENT, a folder without a share key with API_EKEY.
     */
    method ExportnodeResult(h: Handle, handle64: string, view: EngineView, encode: seq<bv8> -> string)
      requires Valid()
      modifies this`requestMap, this`trace, Answered()`nodeHandle, Answered()`link
      ensures Valid()
      ensures restag !in old(requestMap) ==> requestMap == old(requestMap) && trace == old(trace)
      ensures restag in old(requestMap) ==>
        var req := old(requestMap)[restag];
        && requestMap == old(requestMap) - {restag}
        && (h !in view.nodes ==>
              req.nodeHandle == UNDEF && req.link == old(req.link)
              && trace == old(trace) + RequestNotices(req, RequestFinish(req, API_ENOENT)))
        && (h in view.nodes ==>
              var n := view.nodes[h];
              && req.nodeHandle == old(req.nodeHandle)
              && match ExportKey(n.nodeType, n.nodeKey, n.shareKey)
                 case Err(_) =>
                   req.link == old(req.link)
                   && trace == old(trace) + RequestNotices(req, RequestFinish(req, API_EKEY))
                 case Ok(key) =>
                   req.link == Some(ExportLink(n.nodeType, handle64, encode(key)))
                   && trace == old(trace) + RequestNotices(req, RequestFinish(req, API_OK)))
    {
      if restag !in requestMap {
        return;
      }
      var req := requestMap[restag];
      if h !in view.nodes {
        req.nodeHandle := UNDEF;
        FireOnRequestFinish(req, API_ENOENT);
        return;
      }
      var n := view.nodes[h];
      match ExportKey(n.nodeType, n.nodeKey, n.shareKey)
      case Err(code) =>
        FireOnRequestFinish(req, code);
      case Ok(key) =>
        req.link := Some(ExportLink(n.nodeType, handle64, encode(key)));
        FireOnRequestFinish(req, API_OK);
    }

    /**
     * openfilelink_result (success): only a logged-in session may use a file link. An
     * import re-tags the request and asks the engine to add the file under its parent; a
     * public-node query records the file as a PublicNode and finishes.
     */
    method OpenfilelinkResult(loggedIn: bool, ph: Handle, key: Option<seq<bv8>>, d: Decryption,
                              size: int, ts: int, tm: int, attrString: seq<bv8>)
      requires Valid()
      requires restag in requestMap && loggedIn && requestMap[restag].kind != ImportLink ==>
        requestMap[restag].publicNode.None?
      modifies this`requestMap, this`reqtag, this`trace, this`commands, Answered()`publicNode
      ensures Valid()
      ensures restag !in old(requestMap) ==>
        requestMap == old(requestMap) && reqtag == old(reqtag) && trace == old(trace) && commands == old(commands)
      ensures restag in old(requestMap) && !loggedIn ==>
        var req := old(requestMap)[restag];
        && requestMap == old(requestMap) - {restag} && reqtag == old(reqtag) && commands == old(commands)
        && trace == old(trace) + RequestNotices(req, RequestFinish(req, API_EACCESS))
      ensures restag in old(requestMap) && loggedIn && old(requestMap)[restag].kind == ImportLink ==>
        var req := old(requestMap)[restag];
        && reqtag == old(reqtag) + 1
        && requestMap == (old(requestMap) - {restag})[reqtag := req]
        && trace == old(trace) && commands == old(commands) + [PutNodes(req.parentHandle, 1)]
      ensures restag in old(requestMap) && loggedIn && old(requestMap)[restag].kind != ImportLink ==>
        var req := old(requestMap)[restag];
        && req.publicNode == Some(PublicNode(PublicFileName(key, d), FILENODE, size, ts, tm, ph,
                                             if key.Some? then key.value else [], attrString))
        && requestMap == old(requestMap) - {restag} && reqtag == old(reqtag) && commands == old(commands)
        && trace == old(trace) + RequestNotices(req, RequestFinish(req, API_OK))
    {
      if restag !in requestMap {
        return;
      }
      var req := requestMap[restag];
      if !loggedIn {
        FireOnRequestFinish(req, API_EACCESS);
        return;
      }
      if req.kind == ImportLink {
        Retag();
        commands := commands + [PutNodes(req.parentHandle, 1)];
        return;
      }
      var keyBytes := if key.Some? then key.value else [];
      req.SetPublicNode(Some(PublicNode(PublicFileName(key, d), FILENODE, size, ts, tm, ph, keyBytes, attrString)));
      FireOnRequestFinish(req, API_OK);
    }

    /**
     * ephemeral_result (success): the ephemeral account exists; the request is re-tagged
     * and the engine sends the signup link to the request's address.
     */
    method EphemeralResult()
      requires Valid()
      modifies this`requestMap, this`reqtag, this`commands
      ensures Valid()
      ensures restag !in old(requestMap) ==>
        requestMap == old(requestMap) && reqtag == old(reqtag) && commands == old(commands)
      ensures restag in old(requestMap) ==>
        var req := old(requestMap)[restag];
        && reqtag == old(reqtag) + 1
        && requestMap == (old(requestMap) - {restag})[reqtag := req]
        && commands == old(commands) + [SendSignupLink(req.email, req.name)]
    {
      if restag !in requestMap {
        return;
      }
      var req := requestMap[restag];
      Retag();
      commands := commands + [SendSignupLink(req.email, req.name)];
    }

    /**
     * querysignuplink_result (success): the link's address and name are recorded. A query
     * finishes there; a confirmation finishes with API_ENOENT when the password does not
     * open the link's challenge, and otherwise is re-tagged and confirmed with the engine.
     */
    method QuerysignuplinkResult(email: string, name: string, passwordMatches: bool)
      requires Valid()
      modifies this`requestMap, this`reqtag, this`trace, this`commands, Answered()`email, Answered()`name
      ensures Valid()
      ensures restag !in old(requestMap) ==>
        requestMap == old(requestMap) && reqtag == old(reqtag) && trace == old(trace) && commands == old(commands)
      ensures restag in old(requestMap) ==>
        var req := old(requestMap)[restag];
        && req.email == Some(email) && req.name == Some(name)
        && (req.kind == QuerySignupLink || !passwordMatches ==>
              requestMap == old(requestMap) - {restag} && reqtag == old(reqtag) && commands == old(commands)
              && trace == old(trace)
                 + RequestNotices(req, RequestFinish(req, if req.kind == QuerySignupLink then API_OK else API_ENOENT)))
        && (req.kind != QuerySignupLink && passwordMatches ==>
              reqtag == old(reqtag) + 1
              && requestMap == (old(requestMap) - {restag})[reqtag := req]
              && trace == old(trace) && commands == old(commands) + [ConfirmSignupLink])
    {
      if restag !in requestMap {
        return;
      }
      var req := requestMap[restag];
      req.email := Some(email);
      req.name := Some(name);
      if req.kind == QuerySignupLink {
        FireOnRequestFinish(req, API_OK);
        return;
      }
      if !passwordMatches {
        FireOnRequestFinish(req, API_ENOENT);
        return;
      }
      Retag();
      commands := commands + [ConfirmSignupLink];
    }

    /** The record tracked for engine transfer `id`, as a set. */
    function Tracked(id: int): set<Transfer>
      reads this`transferMap
    {
      if id in transferMap then {transferMap[id]} else {}
    }

    /** The record waiting for transfer_added, as a set. */
    function Waiting(): set<Transfer>
      reads this`currentTransfer
    {
      if currentTransfer.Some? then {currentTransfer.value} else {}
    }

    /** updateStatics: the pending counters become the sizes of the engine's download and upload queues. */
    method UpdateStatics(view: EngineView)
      modifies this`pendingDownloads, this`pendingUploads
      ensures pendingDownloads == view.queuedDownloads && pendingUploads == view.queuedUploads
    {
      pendingDownloads := view.queuedDownloads;
      pendingUploads := view.queuedUploads;
    }

    /**
     * The first half of transfer_added: the record waiting in `currentTransfer`, or a
     * fresh one of the engine transfer's direction, with `currentTransfer` cleared.
     */
    method Claim(direction: Direction) returns (tr: Transfer)
      requires Valid()
      modifies this`currentTransfer
      ensures Valid() && currentTransfer.None?
      ensures tr !in transferMap.Values && tr !in transferQueue
      ensures old(currentTransfer).Some? ==> tr == old(currentTransfer).value
      ensures old(currentTransfer).None? ==>
        fresh(tr) && tr.listener.None? && tr.kind == (if direction == Get then DownloadType else UploadType)
    {
      if currentTransfer.Some? {
        tr := currentTransfer.value;
      } else {
        tr := new Transfer(if direction == Get then DownloadType else UploadType, None);
      }
      currentTransfer := None;
    }

    /** The binding half of transfer_added: `tr`, not yet tracked, is tracked under the engine transfer. */
    method Track(t: EngineTransfer, tr: Transfer)
      requires Valid() && currentTransfer.None? && tr !in transferMap.Values && tr !in transferQueue
      modifies this`transferMap, tr`transfer, tr`totalBytes, tr`tag
      ensures Valid()
      ensures transferMap == old(transferMap)[t.id := tr]
      ensures tr.transfer == Some(t.id) && tr.totalBytes == t.size && tr.tag == t.tag
    {
      transferMap := transferMap[t.id := tr];
      tr.Bind(t.id, t.size, t.tag);
      forall k | k in transferMap && k != t.id
        ensures transferMap[k] != tr && transferMap[k].transfer == Some(k)
      {
        assert transferMap[k] == old(transferMap)[k];
        assert old(transferMap)[k] in old(transferMap).Values;
      }
    }

    /** The binding of transfer_added: the claimed record, tracked under the engine transfer. */
    method Adopt(t: EngineTransfer, view: EngineView) returns (tr: Transfer)
      requires Valid()
      modifies this`pendingDownloads, this`pendingUploads, this`totalDownloads, this`totalUploads
      modifies this`currentTransfer, this`transferMap, Waiting()`transfer, Waiting()`totalBytes, Waiting()`tag
      ensures pendingDownloads == view.queuedDownloads && pendingUploads == view.queuedUploads
      ensures t.direction == Get ==> totalDownloads == old(totalDownloads) + 1 && totalUploads == old(totalUploads)
      ensures t.direction == Put ==> totalUploads == old(totalUploads) + 1 && totalDownloads == old(totalDownloads)
      ensures Valid() && currentTransfer.None? && transferMap == old(transferMap)[t.id := tr]
      ensures old(currentTransfer).Some? ==> tr == old(currentTransfer).value
      ensures old(currentTransfer).None? ==>
        fresh(tr) && tr.listener.None?
        && tr.kind == (if t.direction == Get then DownloadType else UploadType)
      ensures tr.transfer == Some(t.id) && tr.totalBytes == t.size && tr.tag == t.tag
    {
      UpdateStatics(view);
      tr := Claim(t.direction);
      Track(t, tr);
      if t.direction == Get {
        totalDownloads := totalDownloads + 1;
      } else {
        totalUploads := totalUploads + 1;
      }
    }

    /**
     * transfer_added: the engine transfer is bound to the record sendPendingTransfers
     * left in `currentTransfer`, or to a fresh one for a transfer the engine started on
     * its own, which is then tracked under the engine transfer; the direction's total
     * counts it.
     */
    method TransferAdded(t: EngineTransfer, view: EngineView) returns (tr: Transfer)
      requires Valid()
      modifies this`pendingDownloads, this`pendingUploads, this`totalDownloads, this`totalUploads
      modifies this`currentTransfer, this`transferMap, this`trace
      modifies Waiting()`transfer, Waiting()`totalBytes, Waiting()`tag
      ensures Valid()
      ensures old(currentTransfer).Some? ==> tr == old(currentTransfer).value
      ensures old(currentTransfer).None? ==>
        fresh(tr) && tr.listener.None?
        && tr.kind == (if t.direction == Get then DownloadType else UploadType)
      ensures currentTransfer.None? && transferMap == old(transferMap)[t.id := tr]
      ensures tr.transfer == Some(t.id) && tr.totalBytes == t.size && tr.tag == t.tag
      ensures pendingDownloads == view.queuedDownloads && pendingUploads == view.queuedUploads
      ensures t.direction == Get ==> totalDownloads == old(totalDownloads) + 1 && totalUploads == old(totalUploads)
      ensures t.direction == Put ==> totalUploads == old(totalUploads) + 1 && totalDownloads == old(totalDownloads)
      ensures trace == old(trace) + TransferNotices(tr, TransferStart(tr))
    {
      tr := Adopt(t, view);
      FireOnTransferStart(tr);
    }

    /** transfer_removed: one fewer pending in the direction; a tracked record hears a temporary API_OK. */
    method TransferRemoved(t: EngineTransfer, view: EngineView)
      requires Valid()
      modifies this`pendingDownloads, this`pendingUploads, this`trace
      ensures Valid()
      ensures pendingDownloads == view.queuedDownloads - (if t.direction == Get then 1 else 0)
      ensures pendingUploads == view.queuedUploads - (if t.direction == Put then 1 else 0)
      ensures t.id !in transferMap ==> trace == old(trace)
      ensures t.id in transferMap ==>
        trace == old(trace) + TransferNotices(transferMap[t.id], TransferTemporaryError(transferMap[t.id], API_OK))
    {
      UpdateStatics(view);
      if t.direction == Get {
        pendingDownloads := pendingDownloads - 1;
      } else {
        pendingUploads := pendingUploads - 1;
      }
      if t.id !in transferMap {
        return;
      }
      FireOnTransferTemporaryError(transferMap[t.id], API_OK);
    }

    /**
     * transfer_prepare: the tracked record learns the local path (and so its file name)
     * and the size; a download also learns the node it fetches.
     */
    method TransferPrepare(t: EngineTransfer, view: EngineView)
      requires Valid()
      modifies this`pendingDownloads, this`pendingUploads
      modifies Tracked(t.id)`path, Tracked(t.id)`fileName, Tracked(t.id)`totalBytes, Tracked(t.id)`nodeHandle
      ensures Valid()
      ensures pendingDownloads == view.queuedDownloads && pendingUploads == view.queuedUploads
      ensures t.id in transferMap ==>
        var tr := transferMap[t.id];
        && tr.path == Some(t.localPath) && tr.fileName == Some(FileNameOf(t.localPath))
        && tr.totalBytes == t.size
        && tr.nodeHandle == (if t.direction == Get then t.fileHandle else old(tr.nodeHandle))
    {
      UpdateStatics(view);
      if t.id !in transferMap {
        return;
      }
      var tr := transferMap[t.id];
      tr.SetPath(Some(t.localPath));
      tr.totalBytes := t.size;
      if t.direction == Get {
        tr.nodeHandle := t.fileHandle;
      }
    }

    /**
     * transfer_update: with a slot, the record takes the slot's progress, the increment
     * since the last report, a start time clamped to the clock, and the speed since
     * then; listeners hear of it once any byte has moved.
     */
    method TransferUpdated(t: EngineTransfer, view: EngineView)
      requires Valid()
      modifies this`pendingDownloads, this`pendingUploads, this`trace
      modifies Tracked(t.id)`time, Tracked(t.id)`startTime, Tracked(t.id)`deltaSize
      modifies Tracked(t.id)`transferredBytes, Tracked(t.id)`speed, Tracked(t.id)`updateTime
      ensures Valid()
      ensures pendingDownloads == view.queuedDownloads && pendingUploads == view.queuedUploads
      ensures t.id !in transferMap || t.slot.None? ==> trace == old(trace)
      ensures t.id in transferMap && t.slot.Some? ==>
        var tr := transferMap[t.id];
        && tr.time == t.slot.value.lastData
        && tr.startTime == ClampStart(old(tr.startTime), view.now)
        && tr.transferredBytes == t.slot.value.progress
        && tr.deltaSize == tr.transferredBytes - old(tr.transferredBytes)
        && tr.speed == Speed(tr.transferredBytes, tr.startTime, view.now)
        && tr.updateTime == view.now
        && trace == old(trace) + (if tr.transferredBytes != 0 then TransferNotices(tr, TransferUpdate(tr)) else [])
    {
      UpdateStatics(view);
      if t.id !in transferMap || t.slot.None? {
        return;
      }
      var tr := transferMap[t.id];
      tr.RecordProgress(t.slot.value.lastData, t.slot.value.progress, view.now);
      if tr.transferredBytes != 0 {
        FireOnTransferUpdate(tr);
      }
    }

    /** transfer_failed: with a slot, the record takes the time data last arrived; listeners hear a temporary `e`. */
    method TransferFailed(t: EngineTransfer, e: int, view: EngineView)
      requires Valid()
      modifies this`pendingDownloads, this`pendingUploads, this`trace, Tracked(t.id)`time
      ensures Valid()
      ensures pendingDownloads == view.queuedDownloads && pendingUploads == view.queuedUploads
      ensures t.id !in transferMap ==> trace == old(trace)
      ensures t.id in transferMap ==>
        var tr := transferMap[t.id];
        && tr.time == (if t.slot.Some? then t.slot.value.lastData else old(tr.time))
        && trace == old(trace) + TransferNotices(tr, TransferTemporaryError(tr, e))
    {
      UpdateStatics(view);
      if t.id !in transferMap {
        return;
      }
      var tr := transferMap[t.id];
      if t.slot.Some? {
        tr.time := t.slot.value.lastData;
      }
      FireOnTransferTemporaryError(tr, e);
    }

    /** transfer_limit: listeners of a tracked record hear a temporary API_EOVERQUOTA. */
    method TransferLimit(t: EngineTransfer, view: EngineView)
      requires Valid()
      modifies this`pendingDownloads, this`pendingUploads, this`trace
      ensures Valid()
      ensures pendingDownloads == view.queuedDownloads && pendingUploads == view.queuedUploads
      ensures t.id !in transferMap ==> trace == old(trace)
      ensures t.id in transferMap ==>
        trace == old(trace)
          + TransferNotices(transferMap[t.id], TransferTemporaryError(transferMap[t.id], API_EOVERQUOTA))
    {
      UpdateStatics(view);
      if t.id !in transferMap {
        return;
      }
      FireOnTransferTemporaryError(transferMap[t.id], API_EOVERQUOTA);
    }

    /**
     * transfer_complete: one fewer pending in the direction; a tracked record is brought
     * to the full size, with the speed over its whole run, and finishes with API_OK,
     * which ends its tracking.
     */
    method TransferComplete(t: EngineTransfer, view: EngineView)
      requires Valid()
      modifies this`pendingDownloads, this`pendingUploads, this`trace, this`transferMap
      modifies Tracked(t.id)`time, Tracked(t.id)`startTime, Tracked(t.id)`deltaSize
      modifies Tracked(t.id)`transferredBytes, Tracked(t.id)`speed
      ensures Valid()
      ensures pendingDownloads == view.queuedDownloads - (if t.direction == Get then 1 else 0)
      ensures pendingUploads == view.queuedUploads - (if t.direction == Put then 1 else 0)
      ensures t.id !in old(transferMap) ==> transferMap == old(transferMap) && trace == old(trace)
      ensures t.id in old(transferMap) ==>
        var tr := old(transferMap)[t.id];
        && tr.startTime == ClampStart(old(tr.startTime), view.now)
        && tr.speed == Speed(tr.totalBytes, tr.startTime, view.now)
        && tr.time == view.now
        && tr.transferredBytes == t.size
        && tr.deltaSize == t.size - old(tr.transferredBytes)
        && transferMap == old(transferMap) - {t.id}
        && trace == old(trace) + TransferNotices(tr, TransferFinish(tr, API_OK))
    {
      UpdateStatics(view);
      if t.direction == Get {
        pendingDownloads := pendingDownloads - 1;
      } else {
        pendingUploads := pendingUploads - 1;
      }
      if t.id !in transferMap {
        return;
      }
      var tr := transferMap[t.id];
      tr.RecordCompletion(t.size, view.now);
      FireOnTransferFinish(tr, API_OK);
    }

    /**
     * The tail of every request-building API call: the request joins the back of the
     * queue sendPendingRequests drains.
     */
    method SubmitRequest(req: Request)
      modifies this`requestQueue
      ensures requestQueue == old(requestQueue) + [req]
    {
      requestQueue := requestQueue + [req];
    }

    /** The tail of every transfer-building API call: a new record joins the back of the transfer queue. */
    method SubmitTransfer(tr: Transfer)
      requires Valid() && tr !in transferMap.Values && tr !in Queued()
      requires currentTransfer.Some? ==> currentTransfer.value != tr
      modifies this`transferQueue
      ensures Valid() && transferQueue == old(transferQueue) + [tr]
    {
      transferQueue := transferQueue + [tr];
    }

    /**
     * getAccountDetails: the request carries the bit mask of the kinds of detail asked
     * for, from which the dispatch derives how many replies to await.
     */
    method GetAccountDetails(storage: bool, transfer: bool, pro: bool,
                             transactions: bool, purchases: bool, sessions: bool,
                             listener: Option<ListenerId>) returns (req: Request)
      modifies this`requestQueue
      ensures fresh(req) && req.kind == AccountDetails && req.listener == listener
      ensures req.numDetails == DetailsMask(storage, transfer, pro, transactions, purchases, sessions)
      ensures requestQueue == old(requestQueue) + [req]
    {
      req := new Request(AccountDetails, listener);
      req.numDetails := DetailsMask(storage, transfer, pro, transactions, purchases, sessions);
      SubmitRequest(req);
    }

    /** pauseTransfers: a request carrying whether to pause (true) or resume (false). */
    method PauseAll(pause: bool, listener: Option<ListenerId>) returns (req: Request)
      modifies this`requestQueue
      ensures fresh(req) && req.kind == PauseTransfers && req.listener == listener && req.flag == pause
      ensures requestQueue == old(requestQueue) + [req]
    {
      req := new Request(PauseTransfers, listener);
      req.flag := pause;
      SubmitRequest(req);
    }

    /**
     * startUpload: an upload record with the local path (and so the file name derived
     * from it), the target folder if any, the connection and speed limits and the
     * facade's retry limit; an explicit file name overrides the derived one.
     */
    method StartUpload(localPath: Option<string>, parent: Option<Handle>, connections: int, maxSpeed: int,
                       fileName: Option<string>, listener: Option<ListenerId>) returns (tr: Transfer)
      requires Valid()
      modifies this`transferQueue
      ensures Valid() && fresh(tr) && transferQueue == old(transferQueue) + [tr]
      ensures tr.kind == UploadType && tr.listener == listener && tr.transfer.None?
      ensures tr.path == localPath
      ensures tr.fileName == (if fileName.Some? then fileName
                              else if localPath.Some? then Some(FileNameOf(localPath.value))
                              else None)
      ensures tr.parentHandle == (if parent.Some? then parent.value else UNDEF)
      ensures tr.numConnections == connections && tr.maxSpeed == maxSpeed && tr.maxRetries == maxRetries
    {
      tr := new Transfer(UploadType, listener);
      tr.SetPath(localPath);
      if parent.Some? {
        tr.parentHandle := parent.value;
      }
      tr.numConnections := connections;
      tr.maxSpeed := maxSpeed;
      tr.maxRetries := maxRetries;
      if fileName.Some? {
        tr.fileName := fileName;
      }
      SubmitTransfer(tr);
    }

    /**
     * The record startDownload builds: a target ending in a separator is the folder to
     * download into; any other target is the path of the file itself, whose name it also
     * gives. The target must be a non-empty string: its last character is read.
     */
    method NewDownload(nodeHandle: Handle, target: string, connections: int, startPos: int, endPos: int,
                       base64Key: Option<string>, listener: Option<ListenerId>) returns (tr: Transfer)
      requires target != []
      ensures fresh(tr) && tr.kind == DownloadType && tr.listener == listener && tr.transfer.None?
      ensures IsSeparator(target[|target| - 1]) ==>
        tr.parentPath == Some(target) && tr.path.None? && tr.fileName.None?
      ensures !IsSeparator(target[|target| - 1]) ==>
        tr.parentPath.None? && tr.path == Some(target) && tr.fileName == Some(FileNameOf(target))
      ensures tr.nodeHandle == nodeHandle && tr.base64Key == base64Key
      ensures tr.numConnections == connections && tr.startPos == startPos && tr.endPos == endPos
      ensures tr.maxRetries == maxRetries
    {
      tr := new Transfer(DownloadType, listener);
      var c := target[|target| - 1];
      if c == '/' || c == '\\' {
        tr.parentPath := Some(target);
      } else {
        tr.SetPath(Some(target));
      }
      tr.nodeHandle := nodeHandle;
      tr.base64Key := base64Key;
      tr.numConnections := connections;
      tr.startPos := startPos;
      tr.endPos := endPos;
      tr.maxRetries := maxRetries;
    }

    /** startDownload: the record NewDownload builds joins the back of the transfer queue. */
    method StartDownload(nodeHandle: Handle, target: string, connections: int, startPos: int, endPos: int,
                         base64Key: Option<string>, listener: Option<ListenerId>) returns (tr: Transfer)
      requires Valid() && target != []
      modifies this`transferQueue
      ensures Valid() && fresh(tr) && transferQueue == old(transferQueue) + [tr]
      ensures tr.kind == DownloadType && tr.listener == listener && tr.transfer.None?
      ensures IsSeparator(target[|target| - 1]) ==>
        tr.parentPath == Some(target) && tr.path.None? && tr.fileName.None?
      ensures !IsSeparator(target[|target| - 1]) ==>
        tr.parentPath.None? && tr.path == Some(target) && tr.fileName == Some(FileNameOf(target))
      ensures tr.nodeHandle == nodeHandle && tr.base64Key == base64Key
      ensures tr.numConnections == connections && tr.startPos == startPos && tr.endPos == endPos
      ensures tr.maxRetries == maxRetries
    {
      tr := NewDownload(nodeHandle, target, connections, startPos, endPos, base64Key, listener);
      SubmitTransfer(tr);
    }

    /** startPublicDownload: a download of a public node into a local folder, holding its own copy of the node. */
    method StartPublicDownload(node: PublicNode, localFolder: Option<string>, listener: Option<ListenerId>)
      returns (tr: Transfer)
      requires Valid()
      modifies this`transferQueue
      ensures Valid() && fresh(tr) && transferQueue == old(transferQueue) + [tr]
      ensures tr.kind == DownloadType && tr.listener == listener && tr.transfer.None?
      ensures tr.parentPath == localFolder && tr.path.None? && tr.nodeHandle == node.handle
      ensures tr.publicNode == Some(node)
    {
      tr := new Transfer(DownloadType, listener);
      tr.parentPath := localFolder;
      tr.nodeHandle := node.handle;
      tr.SetPublicNode(Some(node));
      SubmitTransfer(tr);
    }
  }
}
