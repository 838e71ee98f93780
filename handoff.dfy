// The transfer half of sendPendingTransfers (Source/MEGASync/sdk/megaapi.cpp:3603-3663)
// together with the transfer_added callback startxfer makes before it returns
// (megaapi.cpp:1813-1829). Each popped transfer is read once into a ticket (is it
// rejected, which command does it hand the engine, which engine transfer is it bound to);
// the engine's answer to startxfer is `Some` engine transfer when it calls transfer_added
// and `None` when it does not. The facade state one step changes is a `Books` value, and
// the whole pass is a fold of steps over the popped transfers.
module Handoff {
  import opened Wrappers
  import opened Errors
  import opened Records
  import opened Helpers
  import opened Events
  import opened Dispatch

  /** The slot of a transfer in progress: when data last arrived and how many bytes have been reported. */
  datatype Slot = Slot(lastData: int, progress: int)

  /** What the facade reads of an engine Transfer; `id` stands for its address, the key of transferMap. */
  datatype EngineTransfer = EngineTransfer(
    id: int,
    direction: Direction,
    size: int,
    tag: int,
    slot: Option<Slot>,
    localPath: string,
    fileHandle: Handle)

  /** The fields of a transfer record sendPendingTransfers checks and builds the engine's file from. */
  datatype Checked = Checked(
    kind: TransferType,
    path: Option<string>,
    parentPath: Option<string>,
    parentHandle: Handle,
    nodeHandle: Handle,
    publicNode: Option<PublicNode>)

  /** The checked fields of a record. */
  function CheckedOf(tr: Transfer): Checked
    reads tr`path, tr`parentPath, tr`parentHandle, tr`nodeHandle, tr`publicNode
  {
    Checked(tr.kind, tr.path, tr.parentPath, tr.parentHandle, tr.nodeHandle, tr.publicNode)
  }

  /**
   * sendPendingTransfers's checks: an upload needs a local path; a download needs a
   * node the engine knows or a public node, and a parent path.
   */
  predicate Rejected(c: Checked, view: EngineView)
  {
    match c.kind
    case UploadType => c.path.None?
    case DownloadType => (c.nodeHandle !in view.nodes && c.publicNode.None?) || c.parentPath.None?
  }

  /** The name of the file a download fetches: the node's display name, or the public node's name. */
  function NameOf(c: Checked, view: EngineView): string
    requires c.kind == DownloadType && !Rejected(c, view)
  {
    if c.nodeHandle in view.nodes then view.nodes[c.nodeHandle].displayName else c.publicNode.value.name
  }

  /** The node a download fetches: the one the engine knows by the record's handle, or else the public node. */
  function NodeOf(c: Checked, view: EngineView): Handle
    requires c.kind == DownloadType && !Rejected(c, view)
  {
    if c.nodeHandle in view.nodes then c.nodeHandle else c.publicNode.value.handle
  }

  /** The checks, on a record. */
  predicate TransferRejected(tr: Transfer, view: EngineView)
    reads tr`path, tr`parentPath, tr`parentHandle, tr`nodeHandle, tr`publicNode
  {
    Rejected(CheckedOf(tr), view)
  }

  /** The name a download fetches, for a record. */
  function DownloadName(tr: Transfer, view: EngineView): string
    requires tr.kind == DownloadType && !TransferRejected(tr, view)
    reads tr`path, tr`parentPath, tr`parentHandle, tr`nodeHandle, tr`publicNode
  {
    NameOf(CheckedOf(tr), view)
  }

  /** The node a download fetches, for a record. */
  function DownloadNode(tr: Transfer, view: EngineView): Handle
    requires tr.kind == DownloadType && !TransferRejected(tr, view)
    reads tr`path, tr`parentPath, tr`parentHandle, tr`nodeHandle, tr`publicNode
  {
    NodeOf(CheckedOf(tr), view)
  }

  /** What one iteration reads off a popped transfer before touching it. */
  datatype Ticket = Ticket(rejected: bool, commands: seq<Command>, binding: Option<int>)

  /**
   * The ticket of checked fields and a binding: rejected, or the startxfer command the
   * transfer is handed to the engine with (an upload goes into its parent folder; a
   * download fetches its node into its parent path followed by the file's name).
   */
  function TicketFrom(c: Checked, binding: Option<int>, view: EngineView): Ticket
  {
    if Rejected(c, view) then Ticket(true, [], binding)
    else match c.kind
      case UploadType => Ticket(false, [StartXfer(Put, c.path.value, c.parentHandle)], binding)
      case DownloadType =>
        var name := NameOf(c, view);
        Ticket(false, [StartXfer(Get, DownloadDestination(c.parentPath.value + name, name), NodeOf(c, view))], binding)
  }

  /** The ticket of a record. */
  function TicketOf(tr: Transfer, view: EngineView): Ticket
    reads tr`path, tr`parentPath, tr`parentHandle, tr`nodeHandle, tr`publicNode, tr`transfer
  {
    TicketFrom(CheckedOf(tr), tr.transfer, view)
  }

  /** The tickets of a queue, each read against the engine view of its own iteration. */
  function Tickets(ts: seq<Transfer>, views: seq<EngineView>): (r: seq<Ticket>)
    requires |views| == |ts|
    reads set t | t in ts
    ensures |r| == |ts| && forall i :: 0 <= i < |ts| ==> r[i] == TicketOf(ts[i], views[i])
    decreases |ts|
  {
    if ts == [] then [] else [TicketOf(ts[0], views[0])] + Tickets(ts[1..], views[1..])
  }

  /** The facade state one iteration changes: the logs, the waiting slot, the map, the tags and the counters. */
  datatype Books = Books(
    trace: seq<Notice>,
    commands: seq<Command>,
    waiting: Option<Transfer>,
    tracked: map<int, Transfer>,
    reqtag: int,
    restag: int,
    pendingDownloads: int,
    pendingUploads: int,
    totalDownloads: int,
    totalUploads: int)

  /** The listeners told about one iteration: a rejection's API_EARGS finish, or the start transfer_added reports. */
  function StepNotices(tr: Transfer, k: Ticket, added: Option<EngineTransfer>,
                       category: set<ListenerId>, all: set<ListenerId>): seq<Notice>
  {
    if k.rejected then FanOut(category, all, tr.listener, TransferFinish(tr, API_EARGS))
    else if added.Some? then FanOut(category, all, tr.listener, TransferStart(tr))
    else []
  }

  /**
   * One iteration: a tag is drawn. A rejected transfer finishes under it, which erases
   * the entry of the engine transfer it was bound to. An accepted one is handed to the
   * engine and waits in the slot; if the engine reports it through transfer_added, it
   * leaves the slot at once, is tracked under the engine transfer, and the counters
   * follow the engine.
   */
  function HandOffStep(b: Books, tr: Transfer, k: Ticket, added: Option<EngineTransfer>,
                       view: EngineView, category: set<ListenerId>, all: set<ListenerId>): Books
  {
    var tag := b.reqtag + 1;
    var trace := b.trace + StepNotices(tr, k, added, category, all);
    if k.rejected then
      var tracked := if k.binding.Some? then b.tracked - {k.binding.value} else b.tracked;
      b.(reqtag := tag, restag := tag, trace := trace, tracked := tracked)
    else if added.None? then
      b.(reqtag := tag, commands := b.commands + k.commands, waiting := Some(tr))
    else
      var t := added.value;
      b.(reqtag := tag, commands := b.commands + k.commands, waiting := None, trace := trace,
         tracked := b.tracked[t.id := tr],
         pendingDownloads := view.queuedDownloads, pendingUploads := view.queuedUploads,
         totalDownloads := b.totalDownloads + (if t.direction == Get then 1 else 0),
         totalUploads := b.totalUploads + (if t.direction == Put then 1 else 0))
  }

  /** What one step does to the tags, the logs and the slot. */
  lemma StepFields(b: Books, tr: Transfer, k: Ticket, added: Option<EngineTransfer>,
                   view: EngineView, category: set<ListenerId>, all: set<ListenerId>)
    ensures var r := HandOffStep(b, tr, k, added, view, category, all);
      && r.reqtag == b.reqtag + 1
      && r.commands == b.commands + (if k.rejected then [] else k.commands)
      && r.trace == b.trace + StepNotices(tr, k, added, category, all)
      && r.waiting == (if k.rejected then b.waiting else if added.None? then Some(tr) else None)
      && r.tracked == (if k.rejected then (if k.binding.Some? then b.tracked - {k.binding.value} else b.tracked)
                       else if added.None? then b.tracked else b.tracked[added.value.id := tr])
  {
  }

  /** A rejected transfer: a tag drawn and answered, its finish told, the entry of its binding erased. */
  lemma StepRejected(b: Books, tr: Transfer, k: Ticket, added: Option<EngineTransfer>,
                     view: EngineView, category: set<ListenerId>, all: set<ListenerId>)
    requires k.rejected
    ensures HandOffStep(b, tr, k, added, view, category, all)
         == Books(b.trace + FanOut(category, all, tr.listener, TransferFinish(tr, API_EARGS)), b.commands,
                  b.waiting, if k.binding.Some? then b.tracked - {k.binding.value} else b.tracked,
                  b.reqtag + 1, b.reqtag + 1, b.pendingDownloads, b.pendingUploads,
                  b.totalDownloads, b.totalUploads)
  {
  }

  /** An accepted transfer the engine does not report: a tag drawn, its command issued, the slot taken. */
  lemma StepWaiting(b: Books, tr: Transfer, k: Ticket, added: Option<EngineTransfer>,
                    view: EngineView, category: set<ListenerId>, all: set<ListenerId>)
    requires !k.rejected && added.None?
    ensures HandOffStep(b, tr, k, added, view, category, all)
         == Books(b.trace, b.commands + k.commands, Some(tr), b.tracked, b.reqtag + 1, b.restag,
                  b.pendingDownloads, b.pendingUploads, b.totalDownloads, b.totalUploads)
  {
  }

  /** An accepted transfer the engine adopts: it is tracked, counted and reported started, and the slot is empty. */
  lemma StepAdopted(b: Books, tr: Transfer, k: Ticket, added: Option<EngineTransfer>,
                    view: EngineView, category: set<ListenerId>, all: set<ListenerId>)
    requires !k.rejected && added.Some?
    ensures var t := added.value;
      HandOffStep(b, tr, k, added, view, category, all)
      == Books(b.trace + FanOut(category, all, tr.listener, TransferStart(tr)), b.commands + k.commands,
               None, b.tracked[t.id := tr], b.reqtag + 1, b.restag,
               view.queuedDownloads, view.queuedUploads,
               b.totalDownloads + (if t.direction == Get then 1 else 0),
               b.totalUploads + (if t.direction == Put then 1 else 0))
  {
  }

  /** The pass over a queue: the steps one after another, from the front of the queue. */
  function Pass(b: Books, ts: seq<Transfer>, ks: seq<Ticket>, added: seq<Option<EngineTransfer>>,
                views: seq<EngineView>, category: set<ListenerId>, all: set<ListenerId>): Books
    requires |ks| == |ts| && |added| == |ts| && |views| == |ts|
    decreases |ts|
  {
    if ts == [] then b
    else
      var n := |ts| - 1;
      HandOffStep(Pass(b, ts[..n], ks[..n], added[..n], views[..n], category, all),
                  ts[n], ks[n], added[n], views[n], category, all)
  }

  /** The pass over the first i + 1 transfers is the pass over the first i, then step i. */
  lemma PassStep(b: Books, ts: seq<Transfer>, ks: seq<Ticket>, added: seq<Option<EngineTransfer>>,
                 views: seq<EngineView>, category: set<ListenerId>, all: set<ListenerId>, i: int)
    requires |ks| == |ts| && |added| == |ts| && |views| == |ts| && 0 <= i < |ts|
    ensures Pass(b, ts[..i + 1], ks[..i + 1], added[..i + 1], views[..i + 1], category, all)
         == HandOffStep(Pass(b, ts[..i], ks[..i], added[..i], views[..i], category, all),
                        ts[i], ks[i], added[i], views[i], category, all)
  {
    assert ts[..i + 1][..i] == ts[..i];
    assert ks[..i + 1][..i] == ks[..i];
    assert added[..i + 1][..i] == added[..i];
    assert views[..i + 1][..i] == views[..i];
  }

  /** A state that is step i applied to the pass over the first i transfers is the pass over the first i + 1. */
  lemma PassAdvance(b: Books, ts: seq<Transfer>, ks: seq<Ticket>, added: seq<Option<EngineTransfer>>,
                    views: seq<EngineView>, category: set<ListenerId>, all: set<ListenerId>, i: int,
                    before: Books, after: Books)
    requires |ks| == |ts| && |added| == |ts| && |views| == |ts| && 0 <= i < |ts|
    requires before == Pass(b, ts[..i], ks[..i], added[..i], views[..i], category, all)
    requires after == HandOffStep(before, ts[i], ks[i], added[i], views[i], category, all)
    ensures after == Pass(b, ts[..i + 1], ks[..i + 1], added[..i + 1], views[..i + 1], category, all)
  {
    PassStep(b, ts, ks, added, views, category, all, i);
  }

  /** The commands of the accepted tickets, in order. */
  function Issued(ks: seq<Ticket>): seq<Command>
    decreases |ks|
  {
    if ks == [] then []
    else Issued(ks[..|ks| - 1]) + (if ks[|ks| - 1].rejected then [] else ks[|ks| - 1].commands)
  }

  /** Every popped transfer draws one tag, and the engine is handed the accepted ones' commands in queue order. */
  lemma {:induction false} PassIssues(b: Books, ts: seq<Transfer>, ks: seq<Ticket>,
                                      added: seq<Option<EngineTransfer>>, views: seq<EngineView>,
                                      category: set<ListenerId>, all: set<ListenerId>)
    requires |ks| == |ts| && |added| == |ts| && |views| == |ts|
    ensures Pass(b, ts, ks, added, views, category, all).reqtag == b.reqtag + |ts|
    ensures Pass(b, ts, ks, added, views, category, all).commands == b.commands + Issued(ks)
    decreases |ts|
  {
    if ts != [] {
      var n := |ts| - 1;
      var p := Pass(b, ts[..n], ks[..n], added[..n], views[..n], category, all);
      PassIssues(b, ts[..n], ks[..n], added[..n], views[..n], category, all);
      StepFields(p, ts[n], ks[n], added[n], views[n], category, all);
      assert ks[..n] == ks[..|ks| - 1];
    }
  }

  /** The pass only appends to the trace. */
  lemma {:induction false} PassExtends(b: Books, ts: seq<Transfer>, ks: seq<Ticket>,
                                       added: seq<Option<EngineTransfer>>, views: seq<EngineView>,
                                       category: set<ListenerId>, all: set<ListenerId>)
    requires |ks| == |ts| && |added| == |ts| && |views| == |ts|
    ensures b.trace <= Pass(b, ts, ks, added, views, category, all).trace
    decreases |ts|
  {
    if ts != [] {
      var n := |ts| - 1;
      var p := Pass(b, ts[..n], ks[..n], added[..n], views[..n], category, all);
      PassExtends(b, ts[..n], ks[..n], added[..n], views[..n], category, all);
      StepFields(p, ts[n], ks[n], added[n], views[n], category, all);
    }
  }

  /** A step tells every category and general listener of a rejection's finish and of an adoption's start. */
  lemma StepReports(tr: Transfer, k: Ticket, added: Option<EngineTransfer>,
                    category: set<ListenerId>, all: set<ListenerId>, l: ListenerId)
    requires l in category || l in all
    ensures k.rejected ==> Notice(l, TransferFinish(tr, API_EARGS)) in StepNotices(tr, k, added, category, all)
    ensures !k.rejected && added.Some? ==> Notice(l, TransferStart(tr)) in StepNotices(tr, k, added, category, all)
  {
    if k.rejected {
      FanOutShape(category, all, tr.listener, TransferFinish(tr, API_EARGS));
    } else if added.Some? {
      FanOutShape(category, all, tr.listener, TransferStart(tr));
    }
  }

  /** Whether event ev reports transfer tr at a step with ticket k and engine answer added. */
  predicate Reported(tr: Transfer, k: Ticket, added: Option<EngineTransfer>, ev: Event)
  {
    (k.rejected && ev == TransferFinish(tr, API_EARGS)) || (!k.rejected && added.Some? && ev == TransferStart(tr))
  }

  /** A step tells of nothing but a rejection's finish or an adoption's start. */
  lemma StepReportsOnly(tr: Transfer, k: Ticket, added: Option<EngineTransfer>,
                        category: set<ListenerId>, all: set<ListenerId>, n: Notice)
    requires n in StepNotices(tr, k, added, category, all)
    ensures Reported(tr, k, added, n.event)
  {
    if k.rejected {
      FanOutShape(category, all, tr.listener, TransferFinish(tr, API_EARGS));
    } else if added.Some? {
      FanOutShape(category, all, tr.listener, TransferStart(tr));
    }
  }

  /**
   * Every listener of the category and every general listener hears of each popped
   * transfer: an API_EARGS finish for a rejected one, a start for one the engine adopted.
   */
  lemma {:induction false} PassReports(b: Books, ts: seq<Transfer>, ks: seq<Ticket>,
                                       added: seq<Option<EngineTransfer>>, views: seq<EngineView>,
                                       category: set<ListenerId>, all: set<ListenerId>, i: int, l: ListenerId)
    requires |ks| == |ts| && |added| == |ts| && |views| == |ts|
    requires 0 <= i < |ts| && (l in category || l in all)
    ensures ks[i].rejected ==>
      Notice(l, TransferFinish(ts[i], API_EARGS)) in Pass(b, ts, ks, added, views, category, all).trace
    ensures !ks[i].rejected && added[i].Some? ==>
      Notice(l, TransferStart(ts[i])) in Pass(b, ts, ks, added, views, category, all).trace
    decreases |ts|
  {
    var n := |ts| - 1;
    var p := Pass(b, ts[..n], ks[..n], added[..n], views[..n], category, all);
    StepFields(p, ts[n], ks[n], added[n], views[n], category, all);
    if i < n {
      PassReports(b, ts[..n], ks[..n], added[..n], views[..n], category, all, i, l);
      assert ts[..n][i] == ts[i] && ks[..n][i] == ks[i] && added[..n][i] == added[i];
    } else {
      StepReports(ts[n], ks[n], added[n], category, all, l);
    }
  }

  /**
   * Nothing else is reported: each notice the pass adds to the trace (position q) is a
   * rejection's finish or an adopted transfer's start.
   */
  lemma {:induction false} PassReportsOnly(b: Books, ts: seq<Transfer>, ks: seq<Ticket>,
                                           added: seq<Option<EngineTransfer>>, views: seq<EngineView>,
                                           category: set<ListenerId>, all: set<ListenerId>, q: int)
    requires |ks| == |ts| && |added| == |ts| && |views| == |ts|
    requires |b.trace| <= q < |Pass(b, ts, ks, added, views, category, all).trace|
    ensures exists i :: (0 <= i < |ts|
      && Reported(ts[i], ks[i], added[i], Pass(b, ts, ks, added, views, category, all).trace[q].event))
    decreases |ts|
  {
    var m := |ts| - 1;
    var p := Pass(b, ts[..m], ks[..m], added[..m], views[..m], category, all);
    var step := StepNotices(ts[m], ks[m], added[m], category, all);
    StepFields(p, ts[m], ks[m], added[m], views[m], category, all);
    var r := p.trace + step;
    if q < |p.trace| {
      PassReportsOnly(b, ts[..m], ks[..m], added[..m], views[..m], category, all, q);
      var i :| 0 <= i < m && Reported(ts[..m][i], ks[..m][i], added[..m][i], p.trace[q].event);
      assert ts[..m][i] == ts[i] && ks[..m][i] == ks[i] && added[..m][i] == added[i];
      assert r[q] == p.trace[q];
    } else {
      assert r[q] in step;
      StepReportsOnly(ts[m], ks[m], added[m], category, all, r[q]);
    }
  }

  /** Whether step j touches the entry of engine transfer id: a rejection bound to it, or an adoption under it. */
  predicate Touches(k: Ticket, added: Option<EngineTransfer>, id: int)
  {
    (k.rejected && k.binding == Some(id)) || (!k.rejected && added.Some? && added.value.id == id)
  }

  /** A transfer the engine adopted stays tracked under its engine transfer unless a later step touches that entry. */
  lemma {:induction false} PassTracks(b: Books, ts: seq<Transfer>, ks: seq<Ticket>,
                                      added: seq<Option<EngineTransfer>>, views: seq<EngineView>,
                                      category: set<ListenerId>, all: set<ListenerId>, i: int)
    requires |ks| == |ts| && |added| == |ts| && |views| == |ts|
    requires 0 <= i < |ts| && !ks[i].rejected && added[i].Some?
    requires forall j :: i < j < |ts| ==> !Touches(ks[j], added[j], added[i].value.id)
    ensures added[i].value.id in Pass(b, ts, ks, added, views, category, all).tracked
    ensures Pass(b, ts, ks, added, views, category, all).tracked[added[i].value.id] == ts[i]
    decreases |ts|
  {
    var n := |ts| - 1;
    var p := Pass(b, ts[..n], ks[..n], added[..n], views[..n], category, all);
    StepFields(p, ts[n], ks[n], added[n], views[n], category, all);
    if i < n {
      PassTracks(b, ts[..n], ks[..n], added[..n], views[..n], category, all, i);
      assert !Touches(ks[n], added[n], added[i].value.id);
    }
  }

  /** A record the engine never adopts and that is not tracked already is not tracked after the pass. */
  lemma {:induction false} PassNeverTracks(b: Books, ts: seq<Transfer>, ks: seq<Ticket>,
                                           added: seq<Option<EngineTransfer>>, views: seq<EngineView>,
                                           category: set<ListenerId>, all: set<ListenerId>, x: Transfer)
    requires |ks| == |ts| && |added| == |ts| && |views| == |ts|
    requires x !in b.tracked.Values
    requires forall j :: 0 <= j < |ts| && !ks[j].rejected && added[j].Some? ==> ts[j] != x
    ensures x !in Pass(b, ts, ks, added, views, category, all).tracked.Values
    decreases |ts|
  {
    if ts != [] {
      var n := |ts| - 1;
      var p := Pass(b, ts[..n], ks[..n], added[..n], views[..n], category, all);
      var r := Pass(b, ts, ks, added, views, category, all);
      forall j | 0 <= j < n && !ks[..n][j].rejected && added[..n][j].Some?
        ensures ts[..n][j] != x
      {
        assert ts[..n][j] == ts[j] && ks[..n][j] == ks[j] && added[..n][j] == added[j];
      }
      PassNeverTracks(b, ts[..n], ks[..n], added[..n], views[..n], category, all, x);
      StepFields(p, ts[n], ks[n], added[n], views[n], category, all);
      forall key | key in r.tracked ensures r.tracked[key] != x {
        assert key in p.tracked ==> p.tracked[key] in p.tracked.Values;
      }
    }
  }

  /** When every popped transfer is rejected, the slot is as the pass found it. */
  lemma {:induction false} PassKeepsSlot(b: Books, ts: seq<Transfer>, ks: seq<Ticket>,
                                         added: seq<Option<EngineTransfer>>, views: seq<EngineView>,
                                         category: set<ListenerId>, all: set<ListenerId>)
    requires |ks| == |ts| && |added| == |ts| && |views| == |ts|
    requires forall j :: 0 <= j < |ts| ==> ks[j].rejected
    ensures Pass(b, ts, ks, added, views, category, all).waiting == b.waiting
    decreases |ts|
  {
    if ts != [] {
      var n := |ts| - 1;
      assert ks[n].rejected;
      PassKeepsSlot(b, ts[..n], ks[..n], added[..n], views[..n], category, all);
      StepFields(Pass(b, ts[..n], ks[..n], added[..n], views[..n], category, all),
                 ts[n], ks[n], added[n], views[n], category, all);
    }
  }

  /**
   * After the pass the slot holds the last accepted transfer if the engine did not
   * adopt it, and is empty if it did.
   */
  lemma {:induction false} PassLeavesSlot(b: Books, ts: seq<Transfer>, ks: seq<Ticket>,
                                          added: seq<Option<EngineTransfer>>, views: seq<EngineView>,
                                          category: set<ListenerId>, all: set<ListenerId>, i: int)
    requires |ks| == |ts| && |added| == |ts| && |views| == |ts|
    requires 0 <= i < |ts| && !ks[i].rejected && forall j :: i < j < |ts| ==> ks[j].rejected
    ensures Pass(b, ts, ks, added, views, category, all).waiting == if added[i].None? then Some(ts[i]) else None
    decreases |ts|
  {
    var n := |ts| - 1;
    StepFields(Pass(b, ts[..n], ks[..n], added[..n], views[..n], category, all),
               ts[n], ks[n], added[n], views[n], category, all);
    if i < n {
      assert ks[n].rejected;
      PassLeavesSlot(b, ts[..n], ks[..n], added[..n], views[..n], category, all, i);
      assert ks[..n][i] == ks[i] && added[..n][i] == added[i] && ts[..n][i] == ts[i];
    }
  }

  /** Once a later transfer is accepted, the slot no longer holds an earlier one. */
  lemma {:induction false} PassSlotMoves(b: Books, ts: seq<Transfer>, ks: seq<Ticket>,
                                         added: seq<Option<EngineTransfer>>, views: seq<EngineView>,
                                         category: set<ListenerId>, all: set<ListenerId>, i: int, j: int)
    requires |ks| == |ts| && |added| == |ts| && |views| == |ts|
    requires 0 <= i < j < |ts| && !ks[j].rejected
    requires forall p, q :: 0 <= p < q < |ts| ==> ts[p] != ts[q]
    ensures Pass(b, ts, ks, added, views, category, all).waiting != Some(ts[i])
    decreases |ts|
  {
    var n := |ts| - 1;
    StepFields(Pass(b, ts[..n], ks[..n], added[..n], views[..n], category, all),
               ts[n], ks[n], added[n], views[n], category, all);
    assert ts[i] != ts[n];
    if j < n {
      forall p, q | 0 <= p < q < n ensures ts[..n][p] != ts[..n][q] {
        assert ts[..n][p] == ts[p] && ts[..n][q] == ts[q];
      }
      PassSlotMoves(b, ts[..n], ks[..n], added[..n], views[..n], category, all, i, j);
      assert ts[..n][i] == ts[i];
    }
  }

  /**
   * The hand-off is lost when the engine does not adopt an accepted transfer and a later
   * one is accepted: the later one takes the slot, and the earlier record is neither
   * waiting nor tracked, so no callback can reach it.
   */
  lemma PassLosesUnadopted(b: Books, ts: seq<Transfer>, ks: seq<Ticket>,
                           added: seq<Option<EngineTransfer>>, views: seq<EngineView>,
                           category: set<ListenerId>, all: set<ListenerId>, i: int, j: int)
    requires |ks| == |ts| && |added| == |ts| && |views| == |ts|
    requires 0 <= i < j < |ts| && !ks[i].rejected && added[i].None? && !ks[j].rejected
    requires forall p, q :: 0 <= p < q < |ts| ==> ts[p] != ts[q]
    requires ts[i] !in b.tracked.Values
    ensures Pass(b, ts, ks, added, views, category, all).waiting != Some(ts[i])
    ensures ts[i] !in Pass(b, ts, ks, added, views, category, all).tracked.Values
  {
    PassSlotMoves(b, ts, ks, added, views, category, all, i, j);
    forall q | 0 <= q < |ts| && !ks[q].rejected && added[q].Some? ensures ts[q] != ts[i] {
      if q < i {
        assert ts[q] != ts[i];
      } else {
        assert ts[i] != ts[q];
      }
    }
    PassNeverTracks(b, ts, ks, added, views, category, all, ts[i]);
  }
}
