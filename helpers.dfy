// Pure helpers of the facade: the retry predicate of MegaFile, the destination path of a
// download, the name of an upload, access-level parsing, the link formats (folder links,
// export links, signup confirmation links) and the account-details bit mask.
module Helpers {
  import opened Wrappers
  import opened Errors
  import opened Text
  import opened Records

  /** MegaFile::failed: how many failures a transfer survives before it is given up. */
  const MaxFailures := 10

  /**
   * MegaFile::failed: a failed transfer is retried unless the error is a key error or a
   * block, and only while it has failed fewer than ten times.
   */
  predicate RetryAfterFailure(e: int, failcount: int)
  {
    e != API_EKEY && e != API_EBLOCKED && failcount < MaxFailures
  }

  /**
   * The retries a run of failures earns: each failure the transfer survives raises its
   * failure count by one, and the first failure it does not survive ends the run.
   */
  function RetriesOf(errors: seq<int>, failcount: int): nat
    decreases |errors|
  {
    if errors == [] || !RetryAfterFailure(errors[0], failcount) then 0
    else 1 + RetriesOf(errors[1..], failcount + 1)
  }

  /** From failure count f, however many failures come, a transfer is retried at most 10 - f times. */
  lemma {:induction false} RetriesBounded(errors: seq<int>, failcount: int)
    ensures RetriesOf(errors, failcount) <= if failcount < MaxFailures then MaxFailures - failcount else 0
    decreases |errors|
  {
    if errors != [] && RetryAfterFailure(errors[0], failcount) {
      RetriesBounded(errors[1..], failcount + 1);
    }
  }

  /** A key error or a block ends the run: no failure from it on is retried. */
  lemma {:induction false} RetriesStopAtFatal(errors: seq<int>, failcount: int, p: int)
    requires 0 <= p < |errors| && (errors[p] == API_EKEY || errors[p] == API_EBLOCKED)
    ensures RetriesOf(errors, failcount) <= p
    decreases |errors|
  {
    if p > 0 && RetryAfterFailure(errors[0], failcount) {
      RetriesStopAtFatal(errors[1..], failcount + 1, p - 1);
    }
  }

  /** The bound is reached: a long enough run of other errors is retried exactly 10 - f times. */
  lemma {:induction false} RetriesReachBound(errors: seq<int>, failcount: int)
    requires failcount <= MaxFailures && |errors| >= MaxFailures - failcount
    requires forall i :: 0 <= i < |errors| ==> errors[i] != API_EKEY && errors[i] != API_EBLOCKED
    ensures RetriesOf(errors, failcount) == MaxFailures - failcount
    decreases |errors|
  {
    if failcount < MaxFailures {
      assert errors[0] != API_EKEY && errors[0] != API_EBLOCKED;
      RetriesReachBound(errors[1..], failcount + 1);
    }
  }

  /**
   * MegaFileGet's destination: a destination ending in a separator is a folder that gets
   * the node's name appended; any other non-empty destination is the file itself; an
   * empty one means the node's name.
   */
  function DownloadDestination(dstPath: string, name: string): (r: string)
    ensures dstPath == [] ==> r == name
    ensures dstPath != [] && IsSeparator(dstPath[|dstPath| - 1]) ==> r == dstPath + name
    ensures dstPath != [] && !IsSeparator(dstPath[|dstPath| - 1]) ==> r == dstPath
  {
    if |dstPath| > 0 then
      var c := dstPath[|dstPath| - 1];
      if c == '\\' || c == '/' then dstPath + name else dstPath
    else name
  }

  /** The last separator of a concatenation lies in its second part when that part has one. */
  lemma {:induction false} LastSeparatorAppend(a: string, b: string)
    ensures LastSeparator(b).Some? ==> LastSeparator(a + b) == Some(|a| + LastSeparator(b).value)
    ensures LastSeparator(b).None? ==> LastSeparator(a + b) == LastSeparator(a)
    decreases |b|
  {
    if b == [] {
      assert a + b == a;
    } else {
      var ab := a + b;
      assert ab[|ab| - 1] == b[|b| - 1];
      if !IsSeparator(b[|b| - 1]) {
        assert ab[..|ab| - 1] == a + b[..|b| - 1];
        LastSeparatorAppend(a, b[..|b| - 1]);
      }
    }
  }

  /**
   * A download into a folder keeps the node's own name: the file name setPath derives
   * from the destination is the node's name, whenever that name holds no separator.
   */
  lemma DownloadIntoFolderKeepsName(dstPath: string, name: string)
    requires dstPath != [] && IsSeparator(dstPath[|dstPath| - 1])
    requires forall j :: 0 <= j < |name| ==> !IsSeparator(name[j])
    ensures FileNameOf(DownloadDestination(dstPath, name)) == name
  {
    LastSeparatorAppend(dstPath, name);
    assert LastSeparator(dstPath) == Some(|dstPath| - 1);
    assert (dstPath + name)[|dstPath|..] == name;
  }

  /**
   * MegaFilePut's name: everything after the last local separator. When there is none,
   * find_last_of yields npos and npos + 1 wraps round to 0 in size_t, so nothing is erased.
   */
  function UploadName(localName: string, separator: char): (r: string)
    requires |localName| < NPOS
  {
    var cut := (FindLastOf(localName, separator) + 1) % (NPOS + 1);
    localName[cut..]
  }

  /** The upload name is the last component: a suffix without the separator, all of it if none. */
  lemma UploadNameIsLastComponent(localName: string, separator: char)
    requires |localName| < NPOS
    ensures var r := UploadName(localName, separator);
      |r| <= |localName| && localName[|localName| - |r|..] == r
      && (forall j :: 0 <= j < |r| ==> r[j] != separator)
      && (|r| < |localName| ==> localName[|localName| - |r| - 1] == separator)
  {
    var k := FindLastOf(localName, separator);
    var r := UploadName(localName, separator);
    if k == NPOS {
      assert r == localName;
    } else {
      assert r == localName[k + 1..];
      assert forall j :: 0 <= j < |r| ==> r[j] == localName[k + 1 + j];
    }
  }

  /** Access levels of the engine. */
  datatype AccessLevel = AccessUnknown | ReadOnly | ReadWrite | Full | Owner

  /**
   * The share branch of sendPendingRequests: "r" and "ro" share read-only, "rw"
   * read-write and "full" with full access; anything else is an argument error.
   */
  function ShareAccess(access: string): (r: Result<AccessLevel>)
    ensures r.Err? ==> r.code == API_EARGS
    ensures r.Ok? ==> r.value in {ReadOnly, ReadWrite, Full}
  {
    if access == "r" || access == "ro" then Ok(ReadOnly)
    else if access == "rw" then Ok(ReadWrite)
    else if access == "full" then Ok(Full)
    else Err(API_EARGS)
  }

  /** MegaApi::checkAccess's level: like the share parser, plus "owner", defaulting to owner. */
  function CheckAccessLevel(level: Option<string>): AccessLevel
  {
    match level
    case None => ReadOnly
    case Some(s) =>
      if s == "r" || s == "ro" then ReadOnly
      else if s == "rw" then ReadWrite
      else if s == "full" then Full
      else Owner
  }

  /** MegaApi::getAccess's name for a level: "r", "rw", and "full" for every other level. */
  function AccessName(a: AccessLevel): string
  {
    match a
    case ReadOnly => "r"
    case ReadWrite => "rw"
    case _ => "full"
  }

  /**
   * The share parser and checkAccess agree on every string the share parser accepts, and
   * reading back the name of a shareable level gives that level again.
   */
  lemma AccessParsersAgree(s: string, a: AccessLevel)
    ensures ShareAccess(s).Ok? ==> CheckAccessLevel(Some(s)) == ShareAccess(s).value
    ensures ShareAccess(s).Err? ==> CheckAccessLevel(Some(s)) == Owner
    ensures a in {ReadOnly, ReadWrite, Full} ==> ShareAccess(AccessName(a)) == Ok(a)
  {
  }

  /** The marker that introduces a folder link's handle and key. */
  const FolderMarker := "#F!"

  /**
   * The folder-access branch: after the first "#F!" there must be more than twelve
   * characters with a '!' eleven characters in; the folder handle then starts three
   * characters in and the key twelve characters in.
   */
  function FolderLinkParts(link: string): (r: Result<(string, string)>)
    ensures r.Err? ==> r.code == API_EARGS
    ensures r.Ok? <==> (FindSubstring(link, FolderMarker).Some?
                        && |link| - FindSubstring(link, FolderMarker).value > 12
                        && link[FindSubstring(link, FolderMarker).value + 11] == '!')
  {
    match FindSubstring(link, FolderMarker)
    case None => Err(API_EARGS)
    case Some(i) =>
      if |link| - i > 12 && link[i + 11] == '!' then Ok((link[i + 3..], link[i + 12..]))
      else Err(API_EARGS)
  }

  /** The fixed start of every exported link. */
  const LinkPrefix := "https://mega.co.nz/#"

  /**
   * exportnode_result's link: the prefix, "F" for anything but a file, then '!', the
   * public handle, '!' and the key, both in base64.
   */
  function ExportLink(nodeType: int, handle64: string, key64: string): string
  {
    LinkPrefix + (if nodeType != FILENODE then "F" else "") + "!" + handle64 + "!" + key64
  }

  /** The key exportnode_result puts into a link: the node key of a file, a folder's share key. */
  function ExportKey(nodeType: int, nodeKey: seq<bv8>, shareKey: Option<seq<bv8>>): (r: Result<seq<bv8>>)
    ensures nodeType == FILENODE ==> r == Ok(nodeKey)
    ensures nodeType != FILENODE ==> (r.Ok? <==> shareKey.Some?)
    ensures nodeType != FILENODE && shareKey.Some? ==> r == Ok(shareKey.value)
    ensures r.Err? ==> r.code == API_EKEY
  {
    if nodeType == FILENODE then Ok(nodeKey)
    else if shareKey.Some? then Ok(shareKey.value)
    else Err(API_EKEY)
  }

  /** No character before the '#' of the link prefix starts a marker. */
  lemma PrefixHasNoMarker(s: string, marker: string, j: nat)
    requires |LinkPrefix| <= |s| && s[..|LinkPrefix|] == LinkPrefix
    requires marker != [] && marker[0] == '#' && j < |LinkPrefix| - 1
    ensures !OccursAt(s, marker, j)
  {
    assert s[j] == LinkPrefix[j];
    if j + |marker| <= |s| {
      assert s[j..j + |marker|][0] == s[j];
    }
  }

  /**
   * Opening an exported folder link recovers what was exported: the folder handle is the
   * eight-character public handle (followed by the key) and the key is the exported key.
   */
  lemma FolderLinkOfExport(nodeType: int, handle64: string, key64: string)
    requires nodeType != FILENODE
    requires |handle64| == 8 && key64 != []
    ensures FolderLinkParts(ExportLink(nodeType, handle64, key64)) == Ok((handle64 + "!" + key64, key64))
  {
    var link := ExportLink(nodeType, handle64, key64);
    var i := |LinkPrefix| - 1;
    assert link == LinkPrefix + "F!" + handle64 + "!" + key64;
    assert link[..|LinkPrefix|] == LinkPrefix;
    assert link[i..i + 3] == FolderMarker;
    forall j | 0 <= j < i ensures !OccursAt(link, FolderMarker, j) {
      PrefixHasNoMarker(link, FolderMarker, j);
    }
    FindFromFirst(link, FolderMarker, 0, i);
    assert link[i + 11] == '!';
    assert link[i + 3..] == handle64 + "!" + key64;
    assert link[i + 12..] == key64;
  }

  /** The marker of a signup confirmation link. */
  const ConfirmMarker := "#confirm"

  /**
   * The signup branch: the base64 payload starts right after the first "#confirm", or at
   * the start of the link when it has none.
   */
  function SignupPayload(link: string): (r: string)
    ensures FindSubstring(link, ConfirmMarker).None? ==> r == link
    ensures FindSubstring(link, ConfirmMarker).Some? ==>
      |r| + FindSubstring(link, ConfirmMarker).value + |ConfirmMarker| == |link|
      && r == link[|link| - |r|..]
  {
    match FindSubstring(link, ConfirmMarker)
    case None => link
    case Some(i) => link[i + 8..]
  }

  /** A confirmation link made of the link prefix, the marker and a code yields that code. */
  lemma SignupPayloadOfConfirmLink(code: string)
    ensures SignupPayload(LinkPrefix + "confirm" + code) == code
  {
    var link := LinkPrefix + "confirm" + code;
    var i := |LinkPrefix| - 1;
    assert link[..|LinkPrefix|] == LinkPrefix;
    assert link[i..i + 8] == ConfirmMarker;
    forall j | 0 <= j < i ensures !OccursAt(link, ConfirmMarker, j) {
      PrefixHasNoMarker(link, ConfirmMarker, j);
    }
    FindFromFirst(link, ConfirmMarker, 0, i);
    assert link[i + 8..] == code;
  }

  /** Whether `x & weight` is non-zero for a 32-bit int `x` and a one-bit `weight` (two's complement). */
  predicate BitSet(x: int, weight: int)
    requires weight in {0x01, 0x02, 0x04, 0x08, 0x10, 0x20}
  {
    (x % 0x1_0000_0000) / weight % 2 == 1
  }

  /** 1 for true, 0 for false. */
  function Bit(b: bool): int
  {
    if b then 1 else 0
  }

  /** A number whose six binary digits are given has exactly those bits set. */
  lemma Digits(b0: int, b1: int, b2: int, b3: int, b4: int, b5: int)
    requires 0 <= b0 <= 1 && 0 <= b1 <= 1 && 0 <= b2 <= 1 && 0 <= b3 <= 1 && 0 <= b4 <= 1 && 0 <= b5 <= 1
    ensures var m := b0 + 0x02 * b1 + 0x04 * b2 + 0x08 * b3 + 0x10 * b4 + 0x20 * b5;
      && 0 <= m < 64
      && BitSet(m, 0x01) == (b0 == 1) && BitSet(m, 0x02) == (b1 == 1) && BitSet(m, 0x04) == (b2 == 1)
      && BitSet(m, 0x08) == (b3 == 1) && BitSet(m, 0x10) == (b4 == 1) && BitSet(m, 0x20) == (b5 == 1)
  {
    var m := b0 + 0x02 * b1 + 0x04 * b2 + 0x08 * b3 + 0x10 * b4 + 0x20 * b5;
    assert m % 0x1_0000_0000 == m;
    assert m / 0x01 % 2 == b0;
    assert m / 0x02 == b1 + 2 * (b2 + 2 * b3 + 4 * b4 + 8 * b5);
    assert m / 0x04 == b2 + 2 * (b3 + 2 * b4 + 4 * b5);
    assert m / 0x08 == b3 + 2 * (b4 + 2 * b5);
    assert m / 0x10 == b4 + 2 * b5;
    assert m / 0x20 == b5;
  }

  /** getAccountDetails's mask: bits 0x01 to 0x20 for the six kinds of detail asked for. */
  function DetailsMask(storage: bool, transfer: bool, pro: bool,
                       transactions: bool, purchases: bool, sessions: bool): (m: int)
    ensures 0 <= m < 64
    ensures BitSet(m, 0x01) == storage && BitSet(m, 0x02) == transfer && BitSet(m, 0x04) == pro
    ensures BitSet(m, 0x08) == transactions && BitSet(m, 0x10) == purchases
    ensures BitSet(m, 0x20) == sessions
  {
    Digits(Bit(storage), Bit(transfer), Bit(pro), Bit(transactions), Bit(purchases), Bit(sessions));
    Bit(storage) + 0x02 * Bit(transfer) + 0x04 * Bit(pro) + 0x08 * Bit(transactions)
      + 0x10 * Bit(purchases) + 0x20 * Bit(sessions)
  }

  /**
   * The account-details branch: one reply for the basic details plus one more for each
   * of transactions (0x08), purchases (0x10) and sessions (0x20).
   */
  function DetailsReplies(mask: int): int
  {
    1 + (if BitSet(mask, 0x08) then 1 else 0) + (if BitSet(mask, 0x10) then 1 else 0)
      + (if BitSet(mask, 0x20) then 1 else 0)
  }

  /** The number of replies awaited is one plus the number of history kinds asked for. */
  lemma DetailsRepliesOfMask(storage: bool, transfer: bool, pro: bool,
                             transactions: bool, purchases: bool, sessions: bool)
    ensures DetailsReplies(DetailsMask(storage, transfer, pro, transactions, purchases, sessions))
         == 1 + (if transactions then 1 else 0) + (if purchases then 1 else 0)
              + (if sessions then 1 else 0)
    ensures 1 <= DetailsReplies(DetailsMask(storage, transfer, pro, transactions, purchases, sessions)) <= 4
  {
  }
}
