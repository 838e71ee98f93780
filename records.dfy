// The record types the facade hands to its listeners: MegaRequest, MegaTransfer and
// PublicNode (Source/MEGASync/sdk/megaapi.cpp:254-740). C strings that may be NULL are
// `Option<string>`; strdup copies a string, so setting a string field is an assignment.
module Records {
  import opened Wrappers
  import opened Text
  import opened Accounting

  /** A 64-bit node handle of the engine. */
  type Handle = int

  /** The engine's "no handle" value, all 64 bits set. */
  const UNDEF: Handle := 0xFFFF_FFFF_FFFF_FFFF

  /** A listener object, identified by its address. */
  type ListenerId = int

  /** Node types of the engine (file, folder and the four root kinds). */
  const FILENODE := 0
  const FOLDERNODE := 1

  /** The kinds of request MegaRequest::TYPE_* names. */
  datatype RequestType =
    | Login | Mkdir | Move | Copy | Rename | Remove | Share | FolderAccess
    | ImportLink | ImportNode | Export | FetchNodes | AccountDetails | ChangePw
    | Upload | Logout | FastLogin | GetPublicNode | GetAttrFile | SetAttrFile
    | CreateAccount | FastCreateAccount | QuerySignupLink | ConfirmAccount
    | FastConfirmAccount | AddContact | PauseTransfers | RetryPendingConnections | Sync

  /** The request kinds getRequestString has no case for. */
  predicate Unnamed(t: RequestType)
  {
    t in {FastCreateAccount, QuerySignupLink, ConfirmAccount, FastConfirmAccount,
          AddContact, PauseTransfers, RetryPendingConnections}
  }

  /** MegaRequest::getRequestString: a short name per kind, "unknown" where the switch has none. */
  function RequestString(t: RequestType): (s: string)
    ensures s == "unknown" <==> Unnamed(t)
  {
    match t
    case Login => "login"
    case Mkdir => "mkdir"
    case Move => "move"
    case Copy => "copy"
    case Rename => "rename"
    case Remove => "remove"
    case Share => "share"
    case FolderAccess => "folderaccess"
    case ImportLink => "importlink"
    case ImportNode => "importnode"
    case Export => "export"
    case FetchNodes => "fetchnodes"
    case AccountDetails => "accountdetails"
    case ChangePw => "changepw"
    case Upload => "upload"
    case Logout => "logout"
    case FastLogin => "fastlogin"
    case GetPublicNode => "getpublicnode"
    case GetAttrFile => "getattrfile"
    case SetAttrFile => "setattrfile"
    case CreateAccount => "createaccount"
    case Sync => "sync"
    case _ => "unknown"
  }

  /** Two named kinds never share a name, so the name identifies the kind. */
  lemma RequestStringInjective(a: RequestType, b: RequestType)
    requires !Unnamed(a) && RequestString(a) == RequestString(b)
    ensures a == b
  {
  }

  /** The direction of a MegaTransfer (MegaTransfer::TYPE_DOWNLOAD and TYPE_UPLOAD). */
  datatype TransferType = DownloadType | UploadType

  /** MegaTransfer::getTransferString. */
  function TransferString(t: TransferType): (s: string)
    ensures s == "upload" <==> t == UploadType
    ensures s == "download" <==> t == DownloadType
  {
    match t
    case UploadType => "upload"
    case DownloadType => "download"
  }

  /** A file reached through a public link (PublicNode); copies are equal values. */
  datatype PublicNode = PublicNode(name: string, nodeType: int, size: int, ctime: int,
                                   mtime: int, handle: Handle, nodeKey: seq<bv8>,
                                   attrString: seq<bv8>)

  /** The integer part of the engine's account summary that MegaRequest's copy duplicates. */
  datatype AccountData = AccountData(proLevel: int, proUntil: int, storageUsed: int,
                                     storageMax: int, transferOwnUsed: int,
                                     transferSrvUsed: int, transferMax: int)

  /** The per-request record a caller's listener receives (MegaRequest). */
  class Request {
    const kind: RequestType
    const listener: Option<ListenerId>
    const transfer: Option<Transfer>
    var nodeHandle: Handle
    var parentHandle: Handle
    var link: Option<string>
    var userHandle: Option<string>
    var name: Option<string>
    var email: Option<string>
    var password: Option<string>
    var newPassword: Option<string>
    var privateKey: Option<string>
    var access: Option<string>
    var file: Option<string>
    var numRetry: int
    var nextRetryDelay: int
    var publicNode: Option<PublicNode>
    var numDetails: int
    var attrType: int
    var flag: bool
    var accountDetails: Option<AccountData>

    /** MegaRequest(type, listener): every field at its default; account requests get a summary. */
    constructor (kind: RequestType, listener: Option<ListenerId>)
      ensures this.kind == kind && this.listener == listener && transfer.None?
      ensures nodeHandle == UNDEF && parentHandle == UNDEF
      ensures link.None? && userHandle.None? && name.None? && email.None?
      ensures password.None? && newPassword.None? && privateKey.None?
      ensures access.None? && file.None? && publicNode.None?
      ensures numRetry == 0 && nextRetryDelay == 0 && numDetails == 0
      ensures attrType == 0 && !flag
      ensures accountDetails.Some? <==> kind == AccountDetails
    {
      this.kind := kind;
      this.listener := listener;
      transfer := None;
      nodeHandle, parentHandle := UNDEF, UNDEF;
      link, userHandle, name, email := None, None, None, None;
      password, newPassword, privateKey := None, None, None;
      access, file, publicNode := None, None, None;
      numRetry, nextRetryDelay, numDetails, attrType := 0, 0, 0, 0;
      flag := false;
      accountDetails := if kind == AccountDetails then Some(AccountData(0, 0, 0, 0, 0, 0, 0)) else None;
    }

    /** MegaRequest(transfer): an upload request bound to its transfer, without a listener. */
    constructor ForTransfer(t: Transfer)
      ensures kind == Upload && listener.None? && transfer == Some(t)
      ensures nodeHandle == UNDEF && parentHandle == UNDEF
      ensures link.None? && userHandle.None? && name.None? && email.None?
      ensures password.None? && newPassword.None? && privateKey.None?
      ensures access.None? && file.None? && publicNode.None? && accountDetails.None?
      ensures numRetry == 0 && nextRetryDelay == 0 && numDetails == 0
      ensures attrType == 0 && !flag
    {
      kind := Upload;
      listener := None;
      transfer := Some(t);
      nodeHandle, parentHandle := UNDEF, UNDEF;
      link, userHandle, name, email := None, None, None, None;
      password, newPassword, privateKey := None, None, None;
      access, file, publicNode, accountDetails := None, None, None, None;
      numRetry, nextRetryDelay, numDetails, attrType := 0, 0, 0, 0;
      flag := false;
    }

    /** MegaRequest(const MegaRequest&): a field-by-field copy, except that numDetails restarts at 0. */
    constructor Copy(other: Request)
      ensures kind == other.kind && listener == other.listener && transfer == other.transfer
      ensures nodeHandle == other.nodeHandle && parentHandle == other.parentHandle
      ensures link == other.link && userHandle == other.userHandle && name == other.name
      ensures email == other.email && password == other.password
      ensures newPassword == other.newPassword && privateKey == other.privateKey
      ensures access == other.access && file == other.file && publicNode == other.publicNode
      ensures numRetry == other.numRetry && nextRetryDelay == other.nextRetryDelay
      ensures numDetails == 0 && attrType == other.attrType && flag == other.flag
      ensures accountDetails == other.accountDetails
    {
      kind, listener, transfer := other.kind, other.listener, other.transfer;
      nodeHandle, parentHandle := other.nodeHandle, other.parentHandle;
      link, userHandle, name, email := other.link, other.userHandle, other.name, other.email;
      password, newPassword, privateKey := other.password, other.newPassword, other.privateKey;
      access, file, publicNode := other.access, other.file, other.publicNode;
      numRetry, nextRetryDelay := other.numRetry, other.nextRetryDelay;
      numDetails, attrType, flag := 0, other.attrType, other.flag;
      accountDetails := other.accountDetails;
    }

    /**
     * MegaRequest::setPublicNode while no copy is held: the request keeps its own copy of
     * the node, or none for NULL.
     */
    method SetPublicNode(node: Option<PublicNode>)
      requires publicNode.None?
      modifies this`publicNode
      ensures publicNode == node
    {
      publicNode := node;
    }
  }

  /** The per-transfer record a caller's listener receives (MegaTransfer). */
  class Transfer {
    const kind: TransferType
    const listener: Option<ListenerId>
    var slot: int
    var tag: int
    var transfer: Option<int>
    var path: Option<string>
    var parentPath: Option<string>
    var fileName: Option<string>
    var base64Key: Option<string>
    var nodeHandle: Handle
    var parentHandle: Handle
    var startPos: int
    var endPos: int
    var numConnections: int
    var maxSpeed: int
    var retry: int
    var maxRetries: int
    var time: int
    var startTime: int
    var transferredBytes: int
    var totalBytes: int
    var speed: int
    var deltaSize: int
    var updateTime: int
    var publicNode: Option<PublicNode>

    /** MegaTransfer(type, listener): every field at its default. */
    constructor (kind: TransferType, listener: Option<ListenerId>)
      ensures this.kind == kind && this.listener == listener
      ensures slot == -1 && tag == -1 && transfer.None?
      ensures path.None? && parentPath.None? && fileName.None? && base64Key.None?
      ensures nodeHandle == UNDEF && parentHandle == UNDEF
      ensures startPos == 0 && endPos == 0 && numConnections == 1 && maxSpeed == 1
      ensures retry == 0 && maxRetries == 3 && time == 0 && startTime == 0
      ensures transferredBytes == 0 && totalBytes == 0 && speed == 0
      ensures deltaSize == 0 && updateTime == 0 && publicNode.None?
    {
      this.kind := kind;
      this.listener := listener;
      slot, tag, transfer := -1, -1, None;
      path, parentPath, fileName, base64Key := None, None, None, None;
      nodeHandle, parentHandle := UNDEF, UNDEF;
      startPos, endPos, numConnections, maxSpeed := 0, 0, 1, 1;
      retry, maxRetries, time, startTime := 0, 3, 0, 0;
      transferredBytes, totalBytes, speed, deltaSize, updateTime := 0, 0, 0, 0, 0;
      publicNode := None;
    }

    /** MegaTransfer(const MegaTransfer&): a field-by-field copy. */
    constructor Copy(other: Transfer)
      ensures kind == other.kind && listener == other.listener && transfer == other.transfer
      ensures slot == other.slot && tag == other.tag && path == other.path
      ensures parentPath == other.parentPath && fileName == other.fileName
      ensures base64Key == other.base64Key && nodeHandle == other.nodeHandle
      ensures parentHandle == other.parentHandle && startPos == other.startPos
      ensures endPos == other.endPos && numConnections == other.numConnections
      ensures maxSpeed == other.maxSpeed && retry == other.retry
      ensures maxRetries == other.maxRetries && time == other.time
      ensures startTime == other.startTime && transferredBytes == other.transferredBytes
      ensures totalBytes == other.totalBytes && speed == other.speed
      ensures deltaSize == other.deltaSize && updateTime == other.updateTime
      ensures publicNode == other.publicNode
    {
      kind, listener, transfer := other.kind, other.listener, other.transfer;
      slot, tag, path, parentPath := other.slot, other.tag, other.path, other.parentPath;
      fileName, base64Key := other.fileName, other.base64Key;
      nodeHandle, parentHandle := other.nodeHandle, other.parentHandle;
      startPos, endPos := other.startPos, other.endPos;
      numConnections, maxSpeed := other.numConnections, other.maxSpeed;
      retry, maxRetries, time := other.retry, other.maxRetries, other.time;
      startTime, transferredBytes, totalBytes := other.startTime, other.transferredBytes, other.totalBytes;
      speed, deltaSize, updateTime := other.speed, other.deltaSize, other.updateTime;
      publicNode := other.publicNode;
    }

    /**
     * MegaTransfer::setPath: stores the path and, for a non-NULL path, derives the file
     * name by scanning back from the end for a separator. A NULL path leaves the name.
     */
    method SetPath(p: Option<string>)
      modifies this`path, this`fileName
      ensures path == p
      ensures p.None? ==> fileName == old(fileName)
      ensures p.Some? ==> fileName == Some(FileNameOf(p.value))
    {
      path := p;
      if p.None? {
        return;
      }
      var s := p.value;
      var i := |s| - 1;
      while i >= 0
        invariant -1 <= i < |s|
        invariant forall j :: i < j < |s| ==> !IsSeparator(s[j])
      {
        if IsSeparator(s[i]) {
          fileName := Some(s[i + 1..]);
          return;
        }
        i := i - 1;
      }
      fileName := Some(s);
    }

    /** MegaTransfer::setPublicNode while no copy is held (see Request.SetPublicNode). */
    method SetPublicNode(node: Option<PublicNode>)
      requires publicNode.None?
      modifies this`publicNode
      ensures publicNode == node
    {
      publicNode := node;
    }

    /** The engine binding transfer_added gives a record: its engine transfer, size and tag. */
    method Bind(id: int, size: int, engineTag: int)
      modifies this`transfer, this`totalBytes, this`tag
      ensures transfer == Some(id) && totalBytes == size && tag == engineTag
    {
      transfer := Some(id);
      totalBytes := size;
      tag := engineTag;
    }

    /**
     * The setter calls of transfer_update for a transfer with a slot: progress, the
     * increment since the last report, the start time clamped to the clock, and the speed.
     */
    method RecordProgress(lastData: int, progress: int, now: int)
      modifies this`time, this`startTime, this`deltaSize, this`transferredBytes, this`speed, this`updateTime
      ensures time == lastData && updateTime == now
      ensures startTime == ClampStart(old(startTime), now)
      ensures transferredBytes == progress && deltaSize == progress - old(transferredBytes)
      ensures speed == Speed(progress, startTime, now)
    {
      time := lastData;
      if startTime == 0 {
        startTime := now;
      }
      deltaSize := progress - transferredBytes;
      transferredBytes := progress;
      if now < startTime {
        startTime := now;
      }
      speed := CDiv(10 * transferredBytes, now - startTime + 1);
      updateTime := now;
    }

    /**
     * The setter calls of transfer_complete: the start time clamped to the clock, the
     * speed over the whole size, and the record brought to the full size.
     */
    method RecordCompletion(size: int, now: int)
      modifies this`time, this`startTime, this`deltaSize, this`transferredBytes, this`speed
      ensures startTime == ClampStart(old(startTime), now)
      ensures speed == Speed(totalBytes, startTime, now) && time == now
      ensures transferredBytes == size && deltaSize == size - old(transferredBytes)
    {
      if startTime == 0 {
        startTime := now;
      }
      if now < startTime {
        startTime := now;
      }
      speed := CDiv(10 * totalBytes, now - startTime + 1);
      time := now;
      deltaSize := size - transferredBytes;
      transferredBytes := size;
    }
  }
}
