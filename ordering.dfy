// Sorted listings: the node comparators, std::lower_bound and the repeated sorted
// insertion getChildren and getContacts use (Source/MEGASync/sdk/megaapi.cpp:1603-1624,
// 3217-3297).
module Ordering {
  import opened Text

  /** The part of an engine node the comparators look at. */
  datatype Node = Node(nodeType: int, name: string, size: int, ctime: int, mtime: int)

  /** A contact of the account; only the e-mail address takes part in ordering. */
  datatype User = User(email: string)

  // The orders MegaApi::ORDER_* names.
  const ORDER_NONE := 0
  const ORDER_DEFAULT_ASC := 1
  const ORDER_DEFAULT_DESC := 2
  const ORDER_SIZE_ASC := 3
  const ORDER_SIZE_DESC := 4
  const ORDER_CREATION_ASC := 5
  const ORDER_CREATION_DESC := 6
  const ORDER_MODIFICATION_ASC := 7
  const ORDER_MODIFICATION_DESC := 8
  const ORDER_ALPHABETICAL_ASC := 9
  const ORDER_ALPHABETICAL_DESC := 10

  /** nodeComparatorDefaultASC: higher node types first, then names case-insensitively, ties included. */
  predicate DefaultAsc(i: Node, j: Node)
  {
    if i.nodeType < j.nodeType then false
    else if i.nodeType > j.nodeType then true
    else CaseCompare(i.name, j.name) <= 0
  }

  /** nodeComparatorDefaultDESC: lower node types first, then names strictly descending. */
  predicate DefaultDesc(i: Node, j: Node)
  {
    if i.nodeType < j.nodeType then true
    else if i.nodeType > j.nodeType then false
    else !(CaseCompare(i.name, j.name) <= 0)
  }

  predicate SizeAsc(i: Node, j: Node) { i.size < j.size }
  predicate SizeDesc(i: Node, j: Node) { !(i.size < j.size) }
  predicate CreationAsc(i: Node, j: Node) { i.ctime < j.ctime }
  predicate CreationDesc(i: Node, j: Node) { !(i.ctime < j.ctime) }
  predicate ModificationAsc(i: Node, j: Node) { i.mtime < j.mtime }
  predicate ModificationDesc(i: Node, j: Node) { !(i.mtime < j.mtime) }
  predicate AlphabeticalAsc(i: Node, j: Node) { CaseCompare(i.name, j.name) <= 0 }
  predicate AlphabeticalDesc(i: Node, j: Node) { !(CaseCompare(i.name, j.name) <= 0) }

  /** userComparatorDefaultASC: e-mail addresses case-insensitively, ties included. */
  predicate UserAsc(i: User, j: User) { CaseCompare(i.email, j.email) <= 0 }

  /** getChildren's switch: the comparator of a sorting order, DefaultAsc for any other value. */
  function ComparatorFor(order: int): (Node, Node) -> bool
  {
    if order == ORDER_DEFAULT_ASC then DefaultAsc
    else if order == ORDER_DEFAULT_DESC then DefaultDesc
    else if order == ORDER_SIZE_ASC then SizeAsc
    else if order == ORDER_SIZE_DESC then SizeDesc
    else if order == ORDER_CREATION_ASC then CreationAsc
    else if order == ORDER_CREATION_DESC then CreationDesc
    else if order == ORDER_MODIFICATION_ASC then ModificationAsc
    else if order == ORDER_MODIFICATION_DESC then ModificationDesc
    else if order == ORDER_ALPHABETICAL_ASC then AlphabeticalAsc
    else if order == ORDER_ALPHABETICAL_DESC then AlphabeticalDesc
    else DefaultAsc
  }

  /**
   * A comparator lower_bound can work with: transitive, and such that whenever a comes
   * before c, any b comes after a or before c (negative transitivity). Strict orders
   * ("<") and total preorders ("<=") both qualify.
   */
  ghost predicate WeakOrder<T(!new)>(comp: (T, T) -> bool)
  {
    (forall a, b, c :: comp(a, b) && comp(b, c) ==> comp(a, c))
    && (forall a, b, c :: comp(a, c) ==> comp(a, b) || comp(b, c))
  }

  /** No later element of `v` comes strictly before an earlier one. */
  ghost predicate Sorted<T>(v: seq<T>, comp: (T, T) -> bool)
  {
    forall i, j :: 0 <= i < j < |v| ==> !comp(v[j], v[i]) || comp(v[i], v[j])
  }

  /** `v` is partitioned for `x`: the elements that come before `x` form a prefix. */
  ghost predicate Partitioned<T>(v: seq<T>, x: T, comp: (T, T) -> bool)
  {
    forall i, j :: 0 <= i < j < |v| && comp(v[j], x) ==> comp(v[i], x)
  }

  /** A sorted sequence is partitioned for every element under a weak order. */
  lemma SortedIsPartitioned<T(!new)>(v: seq<T>, x: T, comp: (T, T) -> bool)
    requires WeakOrder(comp) && Sorted(v, comp)
    ensures Partitioned(v, x, comp)
  {
    forall i, j | 0 <= i < j < |v| && comp(v[j], x) ensures comp(v[i], x) {
      if comp(v[i], v[j]) {
      } else {
        assert !comp(v[j], v[i]);
        assert comp(v[j], x) ==> comp(v[j], v[i]) || comp(v[i], x);
      }
    }
  }

  /**
   * std::lower_bound: a binary search for the first position whose element does not come
   * before `x`; everything before that position comes before `x`, nothing after it does.
   */
  method LowerBound<T>(v: seq<T>, x: T, comp: (T, T) -> bool) returns (p: nat)
    requires Partitioned(v, x, comp)
    ensures p <= |v|
    ensures forall k :: 0 <= k < p ==> comp(v[k], x)
    ensures forall k :: p <= k < |v| ==> !comp(v[k], x)
  {
    var lo, hi := 0, |v|;
    while lo < hi
      invariant 0 <= lo <= hi <= |v|
      invariant forall k :: 0 <= k < lo ==> comp(v[k], x)
      invariant forall k :: hi <= k < |v| ==> !comp(v[k], x)
    {
      var mid := lo + (hi - lo) / 2;
      if comp(v[mid], x) {
        lo := mid + 1;
      } else {
        hi := mid;
      }
    }
    p := lo;
  }

  /** Inserting at the lower-bound position keeps a sequence sorted, whatever the comparator. */
  lemma InsertKeepsSorted<T>(v: seq<T>, x: T, p: nat, comp: (T, T) -> bool)
    requires Sorted(v, comp) && p <= |v|
    requires forall k :: 0 <= k < p ==> comp(v[k], x)
    requires forall k :: p <= k < |v| ==> !comp(v[k], x)
    ensures Sorted(v[..p] + [x] + v[p..], comp)
  {
    var w := v[..p] + [x] + v[p..];
    forall i, j | 0 <= i < j < |w| ensures !comp(w[j], w[i]) || comp(w[i], w[j]) {
      if i < p && j == p {
        assert w[i] == v[i] && w[j] == x;
      } else if i == p {
        assert w[i] == x && w[j] == v[j - 1];
      } else {
        var i' := if i < p then i else i - 1;
        var j' := if j < p then j else j - 1;
        assert w[i] == v[i'] && w[j] == v[j'] && i' < j';
      }
    }
  }

  /**
   * The insertion loop of getChildren and getContacts: each element, in the order given,
   * goes to the lower-bound position of the listing built so far. The listing is a
   * permutation of the input and, for a weak order, sorted.
   */
  method InsertionListing<T(!new)>(items: seq<T>, comp: (T, T) -> bool) returns (r: seq<T>)
    requires WeakOrder(comp)
    ensures multiset(r) == multiset(items)
    ensures Sorted(r, comp)
  {
    r := [];
    var n := 0;
    while n < |items|
      invariant 0 <= n <= |items|
      invariant multiset(r) == multiset(items[..n])
      invariant Sorted(r, comp)
    {
      var x := items[n];
      SortedIsPartitioned(r, x, comp);
      var p := LowerBound(r, x, comp);
      InsertKeepsSorted(r, x, p, comp);
      assert r == r[..p] + r[p..];
      r := r[..p] + [x] + r[p..];
      assert items[..n + 1] == items[..n] + [x];
      n := n + 1;
    }
    assert items[..n] == items;
  }

  /** The facts about strcasecmp that the name comparators rest on. */
  lemma CaseOrder(a: string, b: string, c: string)
    ensures CaseCompare(a, b) <= 0 || CaseCompare(b, a) <= 0
    ensures CaseCompare(a, b) <= 0 && CaseCompare(b, c) <= 0 ==> CaseCompare(a, c) <= 0
    ensures CaseCompare(a, b) > 0 && CaseCompare(b, c) > 0 ==> CaseCompare(a, c) > 0
  {
    CaseCompareAntisymmetric(a, b);
    CaseCompareAntisymmetric(b, c);
    CaseCompareAntisymmetric(a, c);
    if CaseCompare(a, b) <= 0 && CaseCompare(b, c) <= 0 {
      CaseCompareTransitive(a, b, c);
    }
    if CaseCompare(a, b) > 0 && CaseCompare(b, c) > 0 {
      CaseCompareTransitive(c, b, a);
      if CaseCompare(a, c) <= 0 {
        CaseCompareTransitive(b, a, c);
      }
    }
  }

  /** The default ascending comparator is a weak order. */
  lemma DefaultAscIsWeakOrder()
    ensures WeakOrder(DefaultAsc)
  {
    forall a: Node, b: Node, c: Node | DefaultAsc(a, b) && DefaultAsc(b, c) ensures DefaultAsc(a, c) {
      CaseOrder(a.name, b.name, c.name);
    }
    forall a: Node, b: Node, c: Node | DefaultAsc(a, c) ensures DefaultAsc(a, b) || DefaultAsc(b, c) {
      CaseOrder(a.name, b.name, c.name);
    }
  }

  /** The default descending comparator is a weak order. */
  lemma DefaultDescIsWeakOrder()
    ensures WeakOrder(DefaultDesc)
  {
    forall a: Node, b: Node, c: Node | DefaultDesc(a, b) && DefaultDesc(b, c) ensures DefaultDesc(a, c) {
      CaseOrder(a.name, b.name, c.name);
    }
    forall a: Node, b: Node, c: Node | DefaultDesc(a, c) ensures DefaultDesc(a, b) || DefaultDesc(b, c) {
      CaseOrder(a.name, b.name, c.name);
    }
  }

  /** The alphabetical comparators are weak orders. */
  lemma AlphabeticalIsWeakOrder()
    ensures WeakOrder(AlphabeticalAsc) && WeakOrder(AlphabeticalDesc)
  {
    forall a: Node, b: Node, c: Node
      ensures AlphabeticalAsc(a, b) && AlphabeticalAsc(b, c) ==> AlphabeticalAsc(a, c)
      ensures AlphabeticalAsc(a, c) ==> AlphabeticalAsc(a, b) || AlphabeticalAsc(b, c)
      ensures AlphabeticalDesc(a, b) && AlphabeticalDesc(b, c) ==> AlphabeticalDesc(a, c)
      ensures AlphabeticalDesc(a, c) ==> AlphabeticalDesc(a, b) || AlphabeticalDesc(b, c)
    {
      CaseOrder(a.name, b.name, c.name);
      CaseOrder(c.name, b.name, a.name);
    }
  }

  /** Every comparator getChildren can pick is a weak order, so its listings come out sorted. */
  lemma ComparatorIsWeakOrder(order: int)
    ensures WeakOrder(ComparatorFor(order))
  {
    if order == ORDER_DEFAULT_DESC {
      DefaultDescIsWeakOrder();
    } else if order == ORDER_ALPHABETICAL_ASC || order == ORDER_ALPHABETICAL_DESC {
      AlphabeticalIsWeakOrder();
    } else if ORDER_SIZE_ASC <= order <= ORDER_MODIFICATION_DESC {
    } else {
      DefaultAscIsWeakOrder();
    }
  }

  /** The contact comparator is a weak order. */
  lemma UserComparatorIsWeakOrder()
    ensures WeakOrder(UserAsc)
  {
    forall a: User, b: User, c: User
      ensures CaseCompare(a.email, b.email) <= 0 || CaseCompare(b.email, a.email) <= 0
      ensures CaseCompare(a.email, b.email) <= 0 && CaseCompare(b.email, c.email) <= 0 ==> CaseCompare(a.email, c.email) <= 0
      ensures CaseCompare(a.email, b.email) > 0 && CaseCompare(b.email, c.email) > 0 ==> CaseCompare(a.email, c.email) > 0
    {
      CaseOrder(a.email, b.email, c.email);
    }
  }

  /**
   * MegaApi::getChildren over the children of an existing parent: order 0 and orders past
   * ORDER_ALPHABETICAL_DESC list the children as the engine holds them; any other order
   * (negative ones fall to the switch's default) sorts them with its comparator.
   */
  method GetChildren(children: seq<Node>, order: int) returns (r: seq<Node>)
    ensures order == ORDER_NONE || order > ORDER_ALPHABETICAL_DESC ==> r == children
    ensures multiset(r) == multiset(children)
    ensures Sorted(r, ComparatorFor(order)) || order == ORDER_NONE || order > ORDER_ALPHABETICAL_DESC
  {
    if order == ORDER_NONE || order > ORDER_ALPHABETICAL_DESC {
      r := children;
    } else {
      ComparatorIsWeakOrder(order);
      r := InsertionListing(children, ComparatorFor(order));
    }
  }

  /** MegaApi::getContacts: the account's contacts, sorted by e-mail address. */
  method GetContacts(users: seq<User>) returns (r: seq<User>)
    ensures multiset(r) == multiset(users)
    ensures forall i, j :: 0 <= i < j < |r| ==> CaseCompare(r[i].email, r[j].email) <= 0
  {
    UserComparatorIsWeakOrder();
    r := InsertionListing(users, UserAsc);
    forall i, j | 0 <= i < j < |r| ensures CaseCompare(r[i].email, r[j].email) <= 0 {
      CaseOrder(r[i].email, r[j].email, r[j].email);
    }
  }

  /** What a sorted listing means for each order, in terms of the nodes' attributes. */
  lemma ListingOrder(order: int, r: seq<Node>, i: int, j: int)
    requires Sorted(r, ComparatorFor(order)) && 0 <= i < j < |r|
    ensures order == ORDER_DEFAULT_ASC ==>
      (r[i].nodeType > r[j].nodeType
       || (r[i].nodeType == r[j].nodeType && CaseCompare(r[i].name, r[j].name) <= 0))
    ensures order == ORDER_DEFAULT_DESC ==>
      (r[i].nodeType < r[j].nodeType
       || (r[i].nodeType == r[j].nodeType && CaseCompare(r[j].name, r[i].name) <= 0))
    ensures order == ORDER_SIZE_ASC ==> r[i].size <= r[j].size
    ensures order == ORDER_SIZE_DESC ==> r[i].size >= r[j].size
    ensures order == ORDER_CREATION_ASC ==> r[i].ctime <= r[j].ctime
    ensures order == ORDER_CREATION_DESC ==> r[i].ctime >= r[j].ctime
    ensures order == ORDER_MODIFICATION_ASC ==> r[i].mtime <= r[j].mtime
    ensures order == ORDER_MODIFICATION_DESC ==> r[i].mtime >= r[j].mtime
    ensures order == ORDER_ALPHABETICAL_ASC ==> CaseCompare(r[i].name, r[j].name) <= 0
    ensures order == ORDER_ALPHABETICAL_DESC ==> CaseCompare(r[j].name, r[i].name) <= 0
  {
    CaseOrder(r[i].name, r[j].name, r[j].name);
    CaseCompareAntisymmetric(r[i].name, r[j].name);
  }
}
