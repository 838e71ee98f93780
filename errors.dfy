// MegaError: the API error codes and their human-readable descriptions
// (Source/MEGASync/sdk/megaapi.cpp:742-829).
module Errors {

  // Error codes of the engine (values of the MEGA client library's error enumeration).
  const API_OK := 0
  const API_EINTERNAL := -1
  const API_EARGS := -2
  const API_EAGAIN := -3
  const API_ERATELIMIT := -4
  const API_EFAILED := -5
  const API_ETOOMANY := -6
  const API_ERANGE := -7
  const API_EEXPIRED := -8
  const API_ENOENT := -9
  const API_ECIRCULAR := -10
  const API_EACCESS := -11
  const API_EEXIST := -12
  const API_EINCOMPLETE := -13
  const API_EKEY := -14
  const API_ESID := -15
  const API_EBLOCKED := -16
  const API_EOVERQUOTA := -17
  const API_ETEMPUNAVAIL := -18
  const API_ETOOMANYCONNECTIONS := -19
  const API_EWRITE := -20
  const API_EREAD := -21
  const API_EAPPKEY := -22

  /** The documented codes with their descriptions, in the order the source lists them. */
  const Described: seq<(int, string)> := [
    (API_OK, "No error"),
    (API_EINTERNAL, "Internal error"),
    (API_EARGS, "Invalid argument"),
    (API_EAGAIN, "Request failed, retrying"),
    (API_ERATELIMIT, "Rate limit exceeded"),
    (API_EFAILED, "Failed permanently"),
    (API_ETOOMANY, "Too many concurrent connections or transfers"),
    (API_ERANGE, "Out of range"),
    (API_EEXPIRED, "Expired"),
    (API_ENOENT, "Not found"),
    (API_ECIRCULAR, "Circular linkage detected"),
    (API_EACCESS, "Access denied"),
    (API_EEXIST, "Already exists"),
    (API_EINCOMPLETE, "Incomplete"),
    (API_EKEY, "Invalid key/Decryption error"),
    (API_ESID, "Bad session ID"),
    (API_EBLOCKED, "Blocked"),
    (API_EOVERQUOTA, "Over quota"),
    (API_ETEMPUNAVAIL, "Temporarily not available"),
    (API_ETOOMANYCONNECTIONS, "Connection overflow"),
    (API_EWRITE, "Write error"),
    (API_EREAD, "Read error"),
    (API_EAPPKEY, "Invalid application key")
  ]

  /** The description a table pairs with `code`, or `fallback` when the table has no entry. */
  function Lookup(table: seq<(int, string)>, code: int, fallback: string): string
  {
    if table == [] then fallback
    else if table[0].0 == code then table[0].1
    else Lookup(table[1..], code, fallback)
  }

  /**
   * MegaError::getErrorString: positive codes are HTTP status codes; non-positive
   * codes go through the switch, whose cases are the table above and whose default is
   * "Unknown error".
   */
  function ErrorString(code: int): string
  {
    if code <= 0 then Lookup(Described, code, "Unknown error") else "HTTP Error"
  }

  /** A lookup finds the first entry whose code matches. */
  lemma {:induction false} LookupFound(table: seq<(int, string)>, i: int, fallback: string)
    requires 0 <= i < |table|
    requires forall j :: 0 <= j < i ==> table[j].0 != table[i].0
    ensures Lookup(table, table[i].0, fallback) == table[i].1
  {
    if i > 0 {
      LookupFound(table[1..], i - 1, fallback);
    }
  }

  /** A lookup of a code the table does not mention yields the fallback. */
  lemma {:induction false} LookupMissing(table: seq<(int, string)>, code: int, fallback: string)
    requires forall j :: 0 <= j < |table| ==> table[j].0 != code
    ensures Lookup(table, code, fallback) == fallback
  {
    if table != [] {
      LookupMissing(table[1..], code, fallback);
    }
  }

  /** A lookup yields the fallback or one of the table's descriptions. */
  lemma {:induction false} LookupAmong(table: seq<(int, string)>, code: int, fallback: string)
    ensures Lookup(table, code, fallback) == fallback
         || exists j :: 0 <= j < |table| && Lookup(table, code, fallback) == table[j].1
  {
    if table != [] && table[0].0 != code {
      LookupAmong(table[1..], code, fallback);
      if Lookup(table, code, fallback) != fallback {
        var j :| 0 <= j < |table| - 1 && Lookup(table, code, fallback) == table[1..][j].1;
        assert table[1..][j] == table[j + 1];
      }
    }
  }

  /** Every documented code gets exactly the description the table pairs it with. */
  lemma ErrorStringDescribed(i: int)
    requires 0 <= i < |Described|
    ensures ErrorString(Described[i].0) == Described[i].1
  {
    assert forall j :: 0 <= j < |Described| ==> Described[j].0 == -j;
    LookupFound(Described, i, "Unknown error");
  }

  /** A non-positive code the table does not document is an unknown error. */
  lemma ErrorStringUndescribed(code: int)
    requires code <= 0
    requires forall j :: 0 <= j < |Described| ==> Described[j].0 != code
    ensures ErrorString(code) == "Unknown error"
  {
    LookupMissing(Described, code, "Unknown error");
  }

  /** A lookup avoids a text that neither the fallback nor any description of the table is. */
  lemma {:induction false} LookupAvoids(table: seq<(int, string)>, code: int, fallback: string, text: string)
    requires fallback != text
    requires forall j :: 0 <= j < |table| ==> table[j].1 != text
    ensures Lookup(table, code, fallback) != text
  {
    if table != [] && table[0].0 != code {
      assert forall j :: 0 <= j < |table| - 1 ==> table[1..][j] == table[j + 1];
      LookupAvoids(table[1..], code, fallback, text);
    }
  }

  /** The text "HTTP Error" is given to exactly the positive codes. */
  lemma ErrorStringHttp(code: int)
    ensures ErrorString(code) == "HTTP Error" <==> code > 0
  {
    if code <= 0 {
      assert forall j :: 0 <= j < |Described| ==> Described[j].1 != "HTTP Error";
      LookupAvoids(Described, code, "Unknown error", "HTTP Error");
    }
  }

  /** A MegaError value: the code and the time of the next attempt (0 when none is planned). */
  datatype MegaError = MegaError(code: int, nextAttempt: int)

  /** The MegaError(int) constructor: the code, with no next attempt scheduled. */
  function NewError(code: int): (e: MegaError)
    ensures e.code == code && IsTemporal(e)
  {
    MegaError(code, 0)
  }

  /** MegaError::isTemporal: an error is temporal when no next attempt is scheduled. */
  predicate IsTemporal(e: MegaError)
  {
    e.nextAttempt == 0
  }

  /** MegaError::setNextAttempt: only the next attempt changes. */
  function SetNextAttempt(e: MegaError, nextAttempt: int): (r: MegaError)
    ensures r.code == e.code && r.nextAttempt == nextAttempt
    ensures IsTemporal(r) <==> nextAttempt == 0
  {
    e.(nextAttempt := nextAttempt)
  }
}
