/**
 * A multi-port component: its scattering table, its per-port power limits
 * and the per-port lists of the (component, port) pairs it is wired to.
 */
module ComponentModel {
  import opened Wrappers
  import opened Failures
  import opened Headers
  import opened ScatteringTable
  import opened Sequences

  /** A power ceiling; `Infinite` is Python's math.inf. */
  datatype Power = Finite(level: real) | Infinite

  /**
   * The constructor's `maxPowers` argument: math.inf (the default), a finite
   * number, or an explicit list.
   */
  datatype MaxPowersArgument = Default | Scalar(level: real) | Explicit(values: seq<Power>)

  /** One entry of a port's connection list: the peer component and the peer's port. */
  datatype Link = Link(peer: Component, port: int)

  /** The ports 1..n (empty when n < 1, as Python's range is). */
  function PortSet(n: int): (r: set<int>)
    ensures forall p :: p in r <==> 1 <= p <= n
    decreases n
  {
    if n < 1 then {} else PortSet(n - 1) + {n}
  }

  // ---------------------------------------------------------------------
  // The column schema of a new component (Component.py:57-61)

  /** The gain names of one value of the outer loop: S{first}1 .. S{first}n. */
  function GainRow(first: int, n: nat): seq<string>
  {
    seq(n, j requires 0 <= j < n => GainHeader(first, j + 1))
  }

  /** The gain names of the outer loop values 1..upTo, each with the inner values 1..n. */
  function GainColumns(n: nat, upTo: nat): seq<string>
  {
    if upTo == 0 then [] else GainColumns(n, upTo - 1) + GainRow(upTo, n)
  }

  function Schema(n: int): seq<string>
  {
    var m := if n < 0 then 0 else n;
    [FrequencyHeader] + GainColumns(m, m)
  }

  /** The nested port loops of Component.py:57-61, formatted into gain names. */
  method GainNames(n: nat) returns (names: seq<string>)
    ensures names == GainColumns(n, n)
  {
    names := [];
    var first := 1;
    while first <= n
      invariant 1 <= first <= n + 1
      invariant names == GainColumns(n, first - 1)
    {
      var second := 1;
      while second <= n
        invariant 1 <= second <= n + 1
        invariant names == GainColumns(n, first - 1) + GainRow(first, n)[..second - 1]
      {
        assert GainRow(first, n)[..second] == GainRow(first, n)[..second - 1] + [GainHeader(first, second)];
        names := names + [GainHeader(first, second)];
        second := second + 1;
      }
      assert GainRow(first, n)[..n] == GainRow(first, n);
      first := first + 1;
    }
  }

  lemma {:induction false} GainColumnsLength(n: nat, upTo: nat)
    ensures |GainColumns(n, upTo)| == upTo * n
  {
    if upTo > 0 {
      GainColumnsLength(n, upTo - 1);
      assert (upTo - 1) * n + n == upTo * n;
    }
  }

  lemma MulMonotone(a: nat, b: nat, n: nat)
    requires a <= b
    ensures a * n <= b * n
  {
  }

  /** Position (i - 1) * n + (j - 1) of the gain columns holds S{i}{j}: outer loop on i, inner loop on j. */
  lemma {:induction false} GainColumnsAt(n: nat, upTo: nat, i: int, j: int)
    requires 1 <= i <= upTo && 1 <= j <= n
    ensures |GainColumns(n, upTo)| == upTo * n
    ensures (i - 1) * n + (j - 1) < upTo * n
    ensures GainColumns(n, upTo)[(i - 1) * n + (j - 1)] == GainHeader(i, j)
  {
    GainColumnsLength(n, upTo);
    GainColumnsLength(n, upTo - 1);
    var front := GainColumns(n, upTo - 1);
    var offset := (upTo - 1) * n;
    assert offset + n == upTo * n;
    var at := (i - 1) * n + (j - 1);
    if i == upTo {
      assert at == offset + (j - 1);
      assert GainColumns(n, upTo) == front + GainRow(upTo, n);
      assert GainColumns(n, upTo)[at] == GainRow(upTo, n)[j - 1];
    } else {
      GainColumnsAt(n, upTo - 1, i, j);
      MulMonotone(i - 1, upTo - 1, n);
      assert at < offset;
      assert GainColumns(n, upTo) == front + GainRow(upTo, n);
    }
  }

  /** Every gain column of the schema is S{i}{j} for some ports i, j in 1..n. */
  lemma {:induction false} GainColumnsOnly(n: nat, upTo: nat, x: string)
    requires x in GainColumns(n, upTo)
    ensures exists i, j :: 1 <= i <= upTo && 1 <= j <= n && x == GainHeader(i, j)
  {
    if x in GainColumns(n, upTo - 1) {
      GainColumnsOnly(n, upTo - 1, x);
      var i, j :| 1 <= i <= upTo - 1 && 1 <= j <= n && x == GainHeader(i, j);
      assert 1 <= i <= upTo;
    } else {
      var j :| 0 <= j < n && GainRow(upTo, n)[j] == x;
      assert x == GainHeader(upTo, j + 1);
    }
  }

  /** A new component of at most nine ports has no dependency columns; one of ten or more ports has its own S{10}{10} among them. */
  lemma NewSchemaDependencies(n: int)
    ensures n <= 9 ==> Dependencies(Schema(n)) == []
    ensures n >= 10 ==> GainHeader(10, 10) in Dependencies(Schema(n))
  {
    var m := if n < 0 then 0 else n;
    DependenciesMembers(Schema(n));
    if n <= 9 {
      if Dependencies(Schema(n)) != [] {
        var x := Dependencies(Schema(n))[0];
        assert x in Schema(n) && IsDependency(x);
        HasPrefixIsTake(x, FrequencyHeader);
        assert x != FrequencyHeader;
        assert x in GainColumns(m, m);
        GainColumnsOnly(m, m, x);
        var i, j :| 1 <= i <= m && 1 <= j <= m && x == GainHeader(i, j);
        WideHeaderIsDependency(i, j);
      }
    } else {
      GainColumnsAt(m, m, 10, 10);
      WideHeaderIsDependency(10, 10);
      assert GainHeader(10, 10) in Schema(n);
    }
  }

  // ---------------------------------------------------------------------
  // Connection lists

  /** Python's list.remove: drop the first occurrence. */
  function RemoveFirst(s: seq<Link>, x: Link): (r: seq<Link>)
    requires x in s
    ensures |r| == |s| - 1
  {
    if s[0] == x then s[1..]
    else [s[0]] + RemoveFirst(s[1..], x)
  }

  /** `list.remove` takes exactly one copy of the entry out. */
  lemma {:induction false} RemoveFirstMultiset(s: seq<Link>, x: Link)
    requires x in s
    ensures multiset(RemoveFirst(s, x)) == multiset(s) - multiset{x}
  {
    assert s == [s[0]] + s[1..];
    if s[0] != x {
      RemoveFirstMultiset(s[1..], x);
    }
  }

  /** Removing what was just appended gives back the very list when the entry was not in it before. */
  lemma {:induction false} RemoveAfterAppendAbsent(s: seq<Link>, x: Link)
    requires x !in s
    ensures RemoveFirst(s + [x], x) == s
  {
    if s == [] {
      assert RemoveFirst([x], x) == [];
    } else {
      assert (s + [x])[1..] == s[1..] + [x];
      RemoveAfterAppendAbsent(s[1..], x);
      assert s == [s[0]] + s[1..];
    }
  }

  /**
   * Removing what was just appended gives back the list's contents; it
   * gives back the very list when the entry was not in it before.
   */
  lemma RemoveAfterAppend(s: seq<Link>, x: Link)
    ensures multiset(RemoveFirst(s + [x], x)) == multiset(s)
    ensures x !in s ==> RemoveFirst(s + [x], x) == s
  {
    RemoveFirstMultiset(s + [x], x);
    assert multiset(s + [x]) == multiset(s) + multiset{x};
    if x !in s {
      RemoveAfterAppendAbsent(s, x);
    }
  }

  /** The connection maps of a set of components, taken as a value. */
  type View = map<Component, map<int, seq<Link>>>

  /** How often port p of a lists `l`. */
  function Count(v: View, a: Component, p: int, l: Link): nat
    requires a in v && p in v[a]
  {
    multiset(v[a][p])[l]
  }

  /** Every link leads to a component of the view and to a port it has. */
  predicate LinksClosed(v: View)
  {
    forall a, p, l :: a in v && p in v[a] && l in v[a][p] ==> l.peer in v && l.port in v[l.peer]
  }

  /** A's port p lists (B, q) as often as B's port q lists (A, p). */
  predicate Balanced(v: View)
  {
    forall a, p, b, q :: a in v && b in v && p in v[a] && q in v[b] ==>
      Count(v, a, p, Link(b, q)) == Count(v, b, q, Link(a, p))
  }

  /** Connection lists are symmetric. */
  predicate SymmetricView(v: View)
  {
    LinksClosed(v) && Balanced(v)
  }

  /** Every link a port listed before is still listed: the lists only grew. */
  predicate Grown(before: map<int, seq<Link>>, after: map<int, seq<Link>>)
  {
    forall p, l :: p in before && l in before[p] ==> p in after && l in after[p]
  }

  /** The view after appending `l` to port p of a. */
  function Appended(v: View, a: Component, p: int, l: Link): (r: View)
    requires a in v && p in v[a]
    ensures r.Keys == v.Keys && forall x :: x in v ==> r[x].Keys == v[x].Keys
  {
    v[a := v[a][p := v[a][p] + [l]]]
  }

  /** The view after removing the first `l` from port p of a. */
  function Removed(v: View, a: Component, p: int, l: Link): (r: View)
    requires a in v && p in v[a] && l in v[a][p]
    ensures r.Keys == v.Keys && forall x :: x in v ==> r[x].Keys == v[x].Keys
  {
    v[a := v[a][p := RemoveFirst(v[a][p], l)]]
  }

  lemma AppendedCount(v: View, a: Component, p: int, l: Link, x: Component, i: int, m: Link)
    requires a in v && p in v[a] && x in v && i in v[x]
    ensures Count(Appended(v, a, p, l), x, i, m) == Count(v, x, i, m) + (if x == a && i == p && m == l then 1 else 0)
  {
  }

  lemma RemovedCount(v: View, a: Component, p: int, l: Link, x: Component, i: int, m: Link)
    requires a in v && p in v[a] && l in v[a][p] && x in v && i in v[x]
    ensures Count(Removed(v, a, p, l), x, i, m) == Count(v, x, i, m) - (if x == a && i == p && m == l then 1 else 0)
  {
    RemoveFirstMultiset(v[a][p], l);
  }

  /** Appending a link to a component and port of the view keeps links closed. */
  lemma AppendedClosed(v: View, a: Component, p: int, l: Link)
    requires LinksClosed(v) && a in v && p in v[a] && l.peer in v && l.port in v[l.peer]
    ensures LinksClosed(Appended(v, a, p, l))
  {
    var w := Appended(v, a, p, l);
    forall x: Component, i: int, m: Link | x in w && i in w[x] && m in w[x][i] ensures m.peer in w && m.port in w[m.peer] {
      if m != l {
        AppendedCount(v, a, p, l, x, i, m);
        assert Count(w, x, i, m) > 0;
        assert m in v[x][i];
      }
    }
  }

  /** Removing a link keeps links closed. */
  lemma RemovedClosed(v: View, a: Component, p: int, l: Link)
    requires LinksClosed(v) && a in v && p in v[a] && l in v[a][p]
    ensures LinksClosed(Removed(v, a, p, l))
  {
    var w := Removed(v, a, p, l);
    forall x: Component, i: int, m: Link | x in w && i in w[x] && m in w[x][i] ensures m.peer in w && m.port in w[m.peer] {
      RemovedCount(v, a, p, l, x, i, m);
      assert Count(w, x, i, m) > 0;
      assert m in v[x][i];
    }
  }

  /** Connecting (a, p) to (b, q) keeps the view symmetric. */
  lemma ConnectKeepsSymmetry(v: View, a: Component, p: int, b: Component, q: int)
    requires SymmetricView(v)
    requires a in v && b in v && p in v[a] && q in v[b]
    ensures SymmetricView(Appended(Appended(v, a, p, Link(b, q)), b, q, Link(a, p)))
  {
    var v1 := Appended(v, a, p, Link(b, q));
    var v2 := Appended(v1, b, q, Link(a, p));
    AppendedClosed(v, a, p, Link(b, q));
    AppendedClosed(v1, b, q, Link(a, p));
    ConnectKeepsBalance(v, a, p, b, q);
  }

  lemma ConnectKeepsBalance(v: View, a: Component, p: int, b: Component, q: int)
    requires Balanced(v)
    requires a in v && b in v && p in v[a] && q in v[b]
    ensures Balanced(Appended(Appended(v, a, p, Link(b, q)), b, q, Link(a, p)))
  {
    var v1 := Appended(v, a, p, Link(b, q));
    var v2 := Appended(v1, b, q, Link(a, p));
    forall x, i, y, j | x in v2 && y in v2 && i in v2[x] && j in v2[y]
      ensures Count(v2, x, i, Link(y, j)) == Count(v2, y, j, Link(x, i))
    {
      AppendedCount(v, a, p, Link(b, q), x, i, Link(y, j));
      AppendedCount(v1, b, q, Link(a, p), x, i, Link(y, j));
      AppendedCount(v, a, p, Link(b, q), y, j, Link(x, i));
      AppendedCount(v1, b, q, Link(a, p), y, j, Link(x, i));
    }
  }

  /**
   * Disconnecting a present pair (a, p)-(b, q) whose two ends differ keeps
   * the view symmetric, and after the first removal the reverse entry is
   * still there to be removed.
   */
  lemma DisconnectKeepsSymmetry(v: View, a: Component, p: int, b: Component, q: int)
    requires SymmetricView(v)
    requires a in v && b in v && p in v[a] && q in v[b] && Link(b, q) in v[a][p]
    requires a != b || p != q
    ensures Link(a, p) in Removed(v, a, p, Link(b, q))[b][q]
    ensures Link(a, p) in Removed(v, a, p, Link(b, q))[b][q] &&
      SymmetricView(Removed(Removed(v, a, p, Link(b, q)), b, q, Link(a, p)))
  {
    var v1 := Removed(v, a, p, Link(b, q));
    assert Count(v, a, p, Link(b, q)) > 0;
    assert Count(v, b, q, Link(a, p)) > 0;
    RemovedCount(v, a, p, Link(b, q), b, q, Link(a, p));
    assert Count(v1, b, q, Link(a, p)) > 0;
    var v2 := Removed(v1, b, q, Link(a, p));
    RemovedClosed(v, a, p, Link(b, q));
    RemovedClosed(v1, b, q, Link(a, p));
    DisconnectKeepsBalance(v, a, p, b, q);
  }

  lemma DisconnectKeepsBalance(v: View, a: Component, p: int, b: Component, q: int)
    requires Balanced(v)
    requires a in v && b in v && p in v[a] && q in v[b] && Link(b, q) in v[a][p]
    requires Link(a, p) in Removed(v, a, p, Link(b, q))[b][q]
    ensures Balanced(Removed(Removed(v, a, p, Link(b, q)), b, q, Link(a, p)))
  {
    var v1 := Removed(v, a, p, Link(b, q));
    var v2 := Removed(v1, b, q, Link(a, p));
    forall x, i, y, j | x in v2 && y in v2 && i in v2[x] && j in v2[y]
      ensures Count(v2, x, i, Link(y, j)) == Count(v2, y, j, Link(x, i))
    {
      RemovedCount(v, a, p, Link(b, q), x, i, Link(y, j));
      RemovedCount(v1, b, q, Link(a, p), x, i, Link(y, j));
      RemovedCount(v, a, p, Link(b, q), y, j, Link(x, i));
      RemovedCount(v1, b, q, Link(a, p), y, j, Link(x, i));
    }
  }

  /** The view after `__connect__(p, b, q)` on a: (b, q) appended to a's port p, then (a, p) to b's port q. */
  function Connected(v: View, a: Component, p: int, b: Component, q: int): (r: View)
    requires a in v && b in v && p in v[a] && q in v[b]
    ensures r.Keys == v.Keys && forall x :: x in v ==> r[x].Keys == v[x].Keys
  {
    Appended(Appended(v, a, p, Link(b, q)), b, q, Link(a, p))
  }

  /** The view after `__disconnect__(p, b, q)` on a, or None where `list.remove` raises. */
  function Disconnected(v: View, a: Component, p: int, b: Component, q: int): Option<View>
    requires a in v && b in v && p in v[a] && q in v[b]
  {
    if Link(b, q) !in v[a][p] then None
    else
      var first := Removed(v, a, p, Link(b, q));
      if Link(a, p) !in first[b][q] then None
      else Some(Removed(first, b, q, Link(a, p)))
  }

  /** Removing an entry that a prefix does not hold removes it from the rest. */
  lemma {:induction false} RemoveSkipsPrefix(s: seq<Link>, rest: seq<Link>, x: Link)
    requires x !in s && x in rest
    ensures RemoveFirst(s + rest, x) == s + RemoveFirst(rest, x)
  {
    if s == [] {
      assert s + rest == rest;
    } else {
      assert (s + rest)[0] == s[0] && s[0] != x;
      assert (s + rest)[1..] == s[1..] + rest;
      RemoveSkipsPrefix(s[1..], rest, x);
      assert s == [s[0]] + s[1..];
    }
  }

  /** Removing a link just appended, which the port did not list before, restores the view. */
  lemma RemovedAppended(v: View, a: Component, p: int, l: Link)
    requires a in v && p in v[a] && l !in v[a][p]
    ensures Removed(Appended(v, a, p, l), a, p, l) == v
  {
    var s := v[a][p];
    var w := Appended(v, a, p, l);
    assert w[a][p] == s + [l];
    RemoveAfterAppend(s, l);
    var r := Removed(w, a, p, l);
    assert r[a] == v[a][p := s];
    assert v[a][p := s] == v[a];
    assert r[a] == v[a];
    assert forall c :: c in r <==> c in v;
    assert forall c :: c in r ==> r[c] == v[c];
    assert r == v;
  }

  /** Removing a second copy of a link just appended leaves the first in place. */
  lemma RemovedSecondCopy(v: View, a: Component, p: int, l: Link)
    requires a in v && p in v[a] && l !in v[a][p]
    ensures Removed(Appended(Appended(v, a, p, l), a, p, l), a, p, l) == Appended(v, a, p, l)
  {
    var s := v[a][p];
    var w1 := Appended(v, a, p, l);
    var w := Appended(w1, a, p, l);
    assert w[a][p] == s + [l, l];
    RemoveSkipsPrefix(s, [l, l], l);
    assert RemoveFirst([l, l], l) == [l];
    assert RemoveFirst(w[a][p], l) == s + [l];
    var r := Removed(w, a, p, l);
    assert r[a][p] == w1[a][p];
    assert forall k :: k in r[a] <==> k in w1[a];
    assert forall k :: k in r[a] ==> r[a][k] == w1[a][k];
    assert r[a] == w1[a];
    assert forall c :: c in r <==> c in w1;
    assert forall c :: c in r ==> r[c] == w1[c];
    assert r == w1;
  }

  /** An append and a removal on two different ports commute. */
  lemma RemovedAppendedCommute(v: View, a: Component, p: int, l: Link, b: Component, q: int, m: Link)
    requires a in v && p in v[a] && b in v && q in v[b] && l in v[a][p] && (a != b || p != q)
    ensures Removed(Appended(v, b, q, m), a, p, l) == Appended(Removed(v, a, p, l), b, q, m)
  {
    var left := Removed(Appended(v, b, q, m), a, p, l);
    var right := Appended(Removed(v, a, p, l), b, q, m);
    if a == b {
      assert left[a] == right[a];
    } else {
      assert left[a] == right[a] && left[b] == right[b];
    }
    assert forall c :: c in left <==> c in right;
    assert forall c :: c in left ==> left[c] == right[c];
  }
  /**
   * Connecting two ports that were not linked to each other and then
   * disconnecting them gives back the very connection lists.
   */
  lemma ConnectThenDisconnect(v: View, a: Component, p: int, b: Component, q: int)
    requires a in v && b in v && p in v[a] && q in v[b]
    requires Link(b, q) !in v[a][p] && Link(a, p) !in v[b][q]
    ensures Disconnected(Connected(v, a, p, b, q), a, p, b, q) == Some(v)
  {
    var x, y := Link(b, q), Link(a, p);
    if a == b && p == q {
      RemovedSecondCopy(v, a, p, x);
      RemovedAppended(v, a, p, x);
    } else {
      var w := Appended(v, a, p, x);
      RemovedAppendedCommute(w, a, p, x, b, q, y);
      RemovedAppended(v, a, p, x);
      RemovedAppended(v, b, q, y);
    }
  }

  // ---------------------------------------------------------------------
  // The component

  class Component {
    const portsNumber: int
    var store: Table
    var maxPowers: Option<seq<Power>>
    var connections: map<int, seq<Link>>

    /** The connection map has exactly the ports 1..portsNumber as keys. */
    ghost predicate Valid()
      reads this
    {
      connections.Keys == PortSet(portsNumber)
    }

    /** Component.py:55-63 and :71: the schema, no rows, no stored power limits, every port unconnected. */
    constructor (portsNumber: int)
      ensures Valid()
      ensures this.portsNumber == portsNumber
      ensures store == Table(Schema(portsNumber), [])
      ensures maxPowers == None
      ensures forall p :: p in connections ==> connections[p] == []
    {
      this.portsNumber := portsNumber;
      var names := GainNames(if portsNumber < 0 then 0 else portsNumber);
      store := Table([FrequencyHeader] + names, []);
      maxPowers := None;
      connections := map p | p in PortSet(portsNumber) :: [];
    }

    /**
     * `Component(portsNumber, maxPowers)` (Component.py:54-71): the default
     * leaves no stored power limits (the list of infinities is built and
     * dropped); an explicit list of the wrong length raises, otherwise it is
     * stored through the MaxPowers setter.
     */
    static method New(portsNumber: int, maxPowers: MaxPowersArgument) returns (r: Result<Component, Failure>)
      ensures r.Ok? <==> maxPowers.Default? || (maxPowers.Explicit? && |maxPowers.values| == portsNumber)
      ensures r.Err? ==> r.error == if maxPowers.Scalar? then UnsizedMaxPowers else MaxPowersLength
      ensures r.Ok? ==> fresh(r.value) && r.value.Valid() && r.value.portsNumber == portsNumber
      ensures r.Ok? ==> r.value.store == Table(Schema(portsNumber), [])
      ensures r.Ok? ==> r.value.maxPowers == if maxPowers.Explicit? then Some(maxPowers.values) else None
      ensures r.Ok? ==> forall p :: p in r.value.connections ==> r.value.connections[p] == []
    {
      var c := new Component(portsNumber);
      if maxPowers.Scalar? {
        return Err(UnsizedMaxPowers);
      } else if maxPowers.Explicit? {
        if |maxPowers.values| != portsNumber {
          return Err(MaxPowersLength);
        }
        var stored := c.SetMaxPowers(maxPowers.values);
      }
      r := Ok(c);
    }

    /** `Dependancies`: the store's dependency columns. */
    function DependencyColumns(): (r: seq<string>)
      reads this
      ensures forall x :: x in r <==> x in store.columns && IsDependency(x)
      ensures NoDup(store.columns) ==> forall i, j :: 0 <= i < j < |r| ==> IndexOf(store.columns, r[i]) < IndexOf(store.columns, r[j])
    {
      DependenciesMembers(store.columns);
      DependenciesInOrder(store.columns);
      Dependencies(store.columns)
    }

    /** The MaxPowers setter (Component.py:49-52). */
    method SetMaxPowers(values: seq<Power>) returns (r: Outcome<Failure>)
      modifies this
      ensures r == (if |values| == portsNumber then Pass else Fail(MaxPowersLength))
      ensures maxPowers == (if |values| == portsNumber then Some(values) else old(maxPowers))
      ensures store == old(store) && connections == old(connections)
    {
      if |values| != portsNumber {
        return Fail(MaxPowersLength);
      }
      maxPowers := Some(values);
      r := Pass;
    }

    /** The SMatrices setter without extra arguments (Component.py:35-36): the store is replaced wholesale. */
    method SetSMatrices(values: Table)
      modifies this
      ensures store == values
      ensures maxPowers == old(maxPowers) && connections == old(connections)
    {
      store := values;
    }

    /**
     * `__connect__` (Component.py:77-79): append (peer, peerPort) to this
     * port's list, then (this, selfPort) to the peer port's list. A missing
     * port raises at the step that looks it up, after the steps before it.
     */
    method Connect(selfPort: int, peer: Component, peerPort: int) returns (r: Outcome<Failure>)
      requires Valid() && peer.Valid()
      modifies this, peer
      ensures Valid() && peer.Valid()
      ensures store == old(store) && maxPowers == old(maxPowers)
      ensures peer.store == old(peer.store) && peer.maxPowers == old(peer.maxPowers)
      ensures selfPort !in old(connections) ==>
        r == Fail(MissingPort(selfPort)) && connections == old(connections) && peer.connections == old(peer.connections)
      ensures selfPort in old(connections) && peer == this ==>
        var first := old(connections)[selfPort := old(connections)[selfPort] + [Link(peer, peerPort)]];
        if peerPort in first then r == Pass && connections == first[peerPort := first[peerPort] + [Link(this, selfPort)]]
        else r == Fail(MissingPort(peerPort)) && connections == first
      ensures selfPort in old(connections) && peer != this ==>
        connections == old(connections)[selfPort := old(connections)[selfPort] + [Link(peer, peerPort)]] &&
        if peerPort in old(peer.connections) then
          r == Pass && peer.connections == old(peer.connections)[peerPort := old(peer.connections)[peerPort] + [Link(this, selfPort)]]
        else r == Fail(MissingPort(peerPort)) && peer.connections == old(peer.connections)
      ensures Grown(old(connections), connections) && Grown(old(peer.connections), peer.connections)
    {
      if selfPort !in connections {
        return Fail(MissingPort(selfPort));
      }
      connections := connections[selfPort := connections[selfPort] + [Link(peer, peerPort)]];
      if peerPort !in peer.connections {
        return Fail(MissingPort(peerPort));
      }
      peer.connections := peer.connections[peerPort := peer.connections[peerPort] + [Link(this, selfPort)]];
      r := Pass;
    }

    /**
     * `__disconnect__` (Component.py:81-83): remove the first (peer, peerPort)
     * from this port's list, then the first (this, selfPort) from the peer
     * port's list; a missing port or a missing entry raises at that step.
     */
    method Disconnect(selfPort: int, peer: Component, peerPort: int) returns (r: Outcome<Failure>)
      requires Valid() && peer.Valid()
      modifies this, peer
      ensures Valid() && peer.Valid()
      ensures store == old(store) && maxPowers == old(maxPowers)
      ensures peer.store == old(peer.store) && peer.maxPowers == old(peer.maxPowers)
      ensures selfPort !in old(connections) ==>
        r == Fail(MissingPort(selfPort)) && connections == old(connections) && peer.connections == old(peer.connections)
      ensures selfPort in old(connections) && Link(peer, peerPort) !in old(connections)[selfPort] ==>
        r == Fail(NotConnected) && connections == old(connections) && peer.connections == old(peer.connections)
      ensures selfPort in old(connections) && Link(peer, peerPort) in old(connections)[selfPort] && peer == this ==>
        var first := old(connections)[selfPort := RemoveFirst(old(connections)[selfPort], Link(peer, peerPort))];
        if peerPort !in first then r == Fail(MissingPort(peerPort)) && connections == first
        else if Link(this, selfPort) !in first[peerPort] then r == Fail(NotConnected) && connections == first
        else r == Pass && connections == first[peerPort := RemoveFirst(first[peerPort], Link(this, selfPort))]
      ensures selfPort in old(connections) && Link(peer, peerPort) in old(connections)[selfPort] && peer != this ==>
        connections == old(connections)[selfPort := RemoveFirst(old(connections)[selfPort], Link(peer, peerPort))] &&
        if peerPort !in old(peer.connections) then r == Fail(MissingPort(peerPort)) && peer.connections == old(peer.connections)
        else if Link(this, selfPort) !in old(peer.connections)[peerPort] then
          r == Fail(NotConnected) && peer.connections == old(peer.connections)
        else
          r == Pass &&
          peer.connections == old(peer.connections)[peerPort := RemoveFirst(old(peer.connections)[peerPort], Link(this, selfPort))]
    {
      if selfPort !in connections {
        return Fail(MissingPort(selfPort));
      }
      if Link(peer, peerPort) !in connections[selfPort] {
        return Fail(NotConnected);
      }
      connections := connections[selfPort := RemoveFirst(connections[selfPort], Link(peer, peerPort))];
      ghost var first := connections;
      ghost var peerBefore := peer.connections;
      assert peer == this ==> peerBefore == first;
      assert peer != this ==> peerBefore == old(peer.connections);
      if peerPort !in peer.connections {
        return Fail(MissingPort(peerPort));
      }
      if Link(this, selfPort) !in peer.connections[peerPort] {
        return Fail(NotConnected);
      }
      peer.connections := peer.connections[peerPort := RemoveFirst(peer.connections[peerPort], Link(this, selfPort))];
      assert peer == this ==> connections == first[peerPort := RemoveFirst(first[peerPort], Link(this, selfPort))];
      r := Pass;
    }
  }
}
