// The decision sendPendingRequests takes for one popped request
// (Source/MEGASync/sdk/megaapi.cpp:3678-4080): the error code it ends with and the
// commands it hands to the engine. The engine (MegaClient) is not modelled: what the
// facade asks of it is a view of its node table and clock, and the error codes its
// calls return.
module Dispatch {
  import opened Wrappers
  import opened Errors
  import opened Text
  import opened Records
  import opened Helpers

  /** What the facade reads of an engine node. */
  datatype NodeInfo = NodeInfo(
    nodeType: int,
    parent: Option<Handle>,
    displayName: string,
    fullAccess: bool,   // checkaccess(node, FULL)
    treeSize: nat,      // nodes TreeProcCopy counts under it, itself included
    nodeKey: seq<bv8>,
    shareKey: Option<seq<bv8>>)

  /** The engine state the facade consults: nodebyhandle, the decisecond clock, loggedin and the queue sizes. */
  datatype EngineView = EngineView(
    nodes: map<Handle, NodeInfo>,
    now: int,
    loggedIn: bool,
    queuedDownloads: int,
    queuedUploads: int)

  /** The error codes the engine calls of one branch return, in call order. */
  datatype Replies = Replies(first: int, second: int, third: int)

  /** The engine's transfer directions. */
  datatype Direction = Get | Put

  /** A command the facade hands to the engine, with the arguments that matter to it. */
  datatype Command =
    | LoginCmd(email: string)
    | PutNodes(target: Handle, count: nat)
    | RenameCmd(node: Handle, newParent: Handle)
    | SetAttr(node: Handle, newName: string)
    | Unlink(node: Handle)
    | SetShare(node: Handle, email: string, level: AccessLevel)
    | FolderAccessCmd(folder: string, key: string)
    | FetchNodesCmd
    | OpenFileLink(link: string)
    | ExportNode(node: Handle)
    | GetAccountDetailsCmd(mask: int)
    | ChangePwCmd
    | LogoutCmd
    | GetFa(node: Handle, attrType: int)
    | AbortBackoff
    | Disconnect
    | Invite(email: string)
    | CreateEphemeral
    | QuerySignupLinkCmd(payload: string)
    | AddSync(localPath: string, node: Handle)
    | PauseXfers(direction: Direction, pause: bool)
    | StartXfer(direction: Direction, localPath: string, node: Handle)
    | SendSignupLink(recipient: Option<string>, accountName: Option<string>)
    | ConfirmSignupLink

  /** The error the switch ends with and the commands it issued. */
  datatype Step = Step(error: int, commands: seq<Command>)

  function Fail(e: int): Step
  {
    Step(e, [])
  }

  /** The MOVE branch's shortcut: the node already sits under the requested parent. */
  predicate SameParentMove(req: Request, view: EngineView)
    reads req`nodeHandle, req`parentHandle
  {
    req.kind == Move && req.nodeHandle in view.nodes && req.parentHandle in view.nodes
    && view.nodes[req.nodeHandle].parent == Some(req.parentHandle)
  }

  /**
   * The switch of sendPendingRequests for one request: which arguments it rejects with
   * API_EARGS or API_EACCESS, which engine calls it makes, and which of their error codes
   * it keeps. Logout and pause/resume issue their commands here; their bookkeeping is
   * done by the caller.
   */
  function Outcome(req: Request, view: EngineView, rep: Replies): Step
    reads req
  {
    match req.kind
    case Login =>
      if req.email.None? || req.password.None? then Fail(API_EARGS)
      else if rep.first != API_OK then Fail(rep.first)
      else Step(API_OK, [LoginCmd(req.email.value)])
    case FastLogin =>
      if req.email.None? || req.privateKey.None? || req.password.None? then Fail(API_EARGS)
      else Step(API_OK, [LoginCmd(req.email.value)])
    case Mkdir =>
      if req.name.None? || req.parentHandle !in view.nodes then Fail(API_EARGS)
      else Step(API_OK, [PutNodes(req.parentHandle, 1)])
    case Move =>
      if req.nodeHandle !in view.nodes || req.parentHandle !in view.nodes then Fail(API_EARGS)
      else if view.nodes[req.nodeHandle].parent == Some(req.parentHandle) then Step(API_OK, [])
      else if rep.first != API_OK then Fail(rep.first)
      else Step(rep.second, [RenameCmd(req.nodeHandle, req.parentHandle)])
    case Copy =>
      if req.nodeHandle !in view.nodes || req.parentHandle !in view.nodes then Fail(API_EARGS)
      else if view.nodes[req.nodeHandle].treeSize == 0 then Fail(API_EARGS)
      else Step(API_OK, [PutNodes(req.parentHandle, view.nodes[req.nodeHandle].treeSize)])
    case Rename =>
      if req.nodeHandle !in view.nodes || req.name.None? then Fail(API_EARGS)
      else if !view.nodes[req.nodeHandle].fullAccess then Fail(API_EACCESS)
      else Step(rep.first, [SetAttr(req.nodeHandle, req.name.value)])
    case Remove =>
      if req.nodeHandle !in view.nodes then Fail(API_EARGS)
      else if !view.nodes[req.nodeHandle].fullAccess then Fail(API_EACCESS)
      else Step(rep.first, [Unlink(req.nodeHandle)])
    case Share =>
      if req.nodeHandle !in view.nodes || req.email.None? || req.access.None? then Fail(API_EARGS)
      else
        (match ShareAccess(req.access.value)
         case Err(e) => Fail(e)
         case Ok(level) => Step(API_OK, [SetShare(req.nodeHandle, req.email.value, level)]))
    case FolderAccess =>
      if req.link.None? then Fail(API_EARGS)
      else
        (match FolderLinkParts(req.link.value)
         case Err(e) => Fail(e)
         case Ok(parts) =>
           if rep.first != API_OK then Step(rep.first, [FolderAccessCmd(parts.0, parts.1)])
           else Step(API_OK, [FolderAccessCmd(parts.0, parts.1), FetchNodesCmd]))
    case ImportLink =>
      if req.link.None? || req.parentHandle !in view.nodes then Fail(API_EARGS)
      else Step(rep.first, [OpenFileLink(req.link.value)])
    case GetPublicNode =>
      if req.link.None? then Fail(API_EARGS)
      else Step(rep.first, [OpenFileLink(req.link.value)])
    case ImportNode =>
      if req.publicNode.None? || req.parentHandle !in view.nodes then Fail(API_EARGS)
      else Step(API_OK, [PutNodes(req.parentHandle, 1)])
    case Export =>
      if req.nodeHandle !in view.nodes then Fail(API_EARGS)
      else Step(rep.first, [ExportNode(req.nodeHandle)])
    case FetchNodes =>
      Step(API_OK, [FetchNodesCmd])
    case AccountDetails =>
      Step(API_OK, [GetAccountDetailsCmd(req.numDetails)])
    case ChangePw =>
      if req.password.None? || req.newPassword.None? then Fail(API_EARGS)
      else if rep.first != API_OK || rep.second != API_OK then Fail(API_EARGS)
      else Step(rep.third, [ChangePwCmd])
    case Logout =>
      Step(API_OK, [LogoutCmd])
    case GetAttrFile =>
      if req.file.None? || req.nodeHandle !in view.nodes then Fail(API_EARGS)
      else Step(rep.first, [GetFa(req.nodeHandle, req.attrType)])
    case SetAttrFile =>
      Step(API_OK, [])
    case RetryPendingConnections =>
      Step(API_OK, [AbortBackoff, Disconnect])
    case AddContact =>
      if req.email.None? then Fail(API_EARGS)
      else Step(API_OK, [Invite(req.email.value)])
    case CreateAccount =>
      if req.email.None? || req.password.None? || req.name.None? then Fail(API_EARGS)
      else Step(API_OK, [CreateEphemeral])
    case FastCreateAccount =>
      if req.email.None? || req.password.None? || req.name.None? then Fail(API_EARGS)
      else Step(API_OK, [CreateEphemeral])
    case QuerySignupLink =>
      if req.link.None? then Fail(API_EARGS)
      else Step(API_OK, [QuerySignupLinkCmd(SignupPayload(req.link.value))])
    case ConfirmAccount =>
      if req.password.None? || req.link.None? then Fail(API_EARGS)
      else Step(API_OK, [QuerySignupLinkCmd(SignupPayload(req.link.value))])
    case FastConfirmAccount =>
      if req.password.None? || req.link.None? then Fail(API_EARGS)
      else Step(API_OK, [QuerySignupLinkCmd(SignupPayload(req.link.value))])
    case Sync =>
      if req.nodeHandle !in view.nodes || view.nodes[req.nodeHandle].nodeType == FILENODE
         || req.file.None?
      then Fail(API_EARGS)
      else Step(rep.first, [AddSync(req.file.value, req.nodeHandle)])
    case PauseTransfers =>
      Step(API_OK, [PauseXfers(Put, req.flag), PauseXfers(Get, req.flag)])
    case Upload =>
      Step(API_OK, [])
  }

  /**
   * Every error the dispatch ends with comes from an argument check (API_EARGS,
   * API_EACCESS) or from an engine reply; it is never invented.
   */
  lemma OutcomeErrorOrigin(req: Request, view: EngineView, rep: Replies)
    ensures var e := Outcome(req, view, rep).error;
      e in {API_OK, API_EARGS, API_EACCESS, rep.first, rep.second, rep.third}
    ensures rep == Replies(API_OK, API_OK, API_OK) ==>
      Outcome(req, view, rep).error in {API_OK, API_EARGS, API_EACCESS}
  {
  }

  /** A request whose node or parent handle the engine does not know is rejected with API_EARGS. */
  lemma UnknownNodeRejected(req: Request, view: EngineView, rep: Replies)
    requires req.kind in {Move, Copy, Rename, Remove, Share, Export, GetAttrFile, Sync}
    requires req.nodeHandle !in view.nodes
    ensures Outcome(req, view, rep) == Fail(API_EARGS)
  {
  }

  /** A request missing a required string argument is rejected with API_EARGS and issues nothing. */
  lemma MissingArgumentRejected(req: Request, view: EngineView, rep: Replies)
    requires
      || (req.kind in {Login, FastLogin, CreateAccount, FastCreateAccount, AddContact, Share} && req.email.None?)
      || (req.kind in {Login, FastLogin, ChangePw, CreateAccount, FastCreateAccount,
                       ConfirmAccount, FastConfirmAccount} && req.password.None?)
      || (req.kind in {FolderAccess, ImportLink, GetPublicNode, QuerySignupLink,
                       ConfirmAccount, FastConfirmAccount} && req.link.None?)
      || (req.kind in {Mkdir, Rename, CreateAccount, FastCreateAccount} && req.name.None?)
      || (req.kind in {GetAttrFile, Sync} && req.file.None?)
    ensures Outcome(req, view, rep) == Fail(API_EARGS)
  {
  }

  /** Engine calls are only issued when the switch has accepted the request's arguments. */
  lemma RejectionIssuesNothing(req: Request, view: EngineView, rep: Replies)
    requires Outcome(req, view, rep).error in {API_EARGS, API_EACCESS}
    requires API_EARGS !in {rep.first, rep.second, rep.third}
    requires API_EACCESS !in {rep.first, rep.second, rep.third}
    ensures Outcome(req, view, rep).commands == []
  {
  }

  /** The folder-access branch opens the folder named by the link's parts and fetches its nodes on success. */
  lemma FolderAccessOfExportLink(req: Request, view: EngineView, rep: Replies,
                                 handle64: string, key64: string, nodeType: int)
    requires req.kind == FolderAccess && nodeType != FILENODE
    requires |handle64| == 8 && key64 != []
    requires req.link == Some(ExportLink(nodeType, handle64, key64))
    requires rep.first == API_OK
    ensures Outcome(req, view, rep)
         == Step(API_OK, [FolderAccessCmd(handle64 + "!" + key64, key64), FetchNodesCmd])
  {
    FolderLinkOfExport(nodeType, handle64, key64);
  }
}
