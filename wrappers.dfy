/** Option and Result, used for NaN cells and for the exceptions the system raises. */
module Wrappers {

  datatype Option<+T> = None | Some(value: T)

  datatype Result<+T, +E> = Ok(value: T) | Err(error: E) {
    predicate IsFailure() { Err? }

    function PropagateFailure<U>(): Result<U, E>
      requires Err?
    {
      Err(error)
    }

    function Extract(): T
      requires Ok?
    {
      value
    }
  }

  datatype Outcome<+E> = Pass | Fail(error: E)
}

/** The exceptions raised by the component and circuit code, one constructor per raise site kind. */
module Failures {

  datatype Failure =
    | DisconnectedCircuit          // Circuit.py:84
    | MaxPowersLength              // Component.py:51 and :68
    | UnsizedMaxPowers             // TypeError of len() on a finite number, Component.py:66
    | MissingPort(port: int)       // KeyError on a connection map
    | NotConnected                 // ValueError of list.remove in __disconnect__
    | MissingNode(node: int)       // KeyError on self.nodes[...]
    | WeightedEdges                // Circuit.py:58
    | MissingColumn(name: string)  // KeyError on a table column
    | EmptyCircuit                 // pop() on the empty list of frequency tables, Circuit.py:75
    | EmptyDependency(name: string)// pop() on an empty set of dependency values, Circuit.py:137
    | NoMatchingRow(name: string)  // IndexError of .values[0], Circuit.py:158
    | NonNumericGain(name: string) // float()/isnan() on a text cell, Circuit.py:157, 160
    | NoPath(from: int, to: int)   // NetworkXNoPath of shortest_path, Circuit.py:103
    | EdgeArguments                // TypeError: add_edges_from passes one positional argument too many, Circuit.py:51
}

/** Small facts about sequences used by several modules. */
module Sequences {

  predicate NoDup<T(==)>(s: seq<T>)
  {
    forall i, j :: 0 <= i < j < |s| ==> s[i] != s[j]
  }

  /** The distinct elements of `s`, in order of first occurrence. */
  function Dedup<T(==,!new)>(s: seq<T>): (r: seq<T>)
    ensures forall x :: x in r <==> x in s
    ensures NoDup(r)
    ensures |r| <= |s|
    decreases |s|
  {
    if s == [] then []
    else
      var u := Dedup(s[..|s| - 1]);
      assert forall x :: x in s <==> x in s[..|s| - 1] || x == s[|s| - 1] by {
        assert s == s[..|s| - 1] + [s[|s| - 1]];
      }
      if s[|s| - 1] in u then u else u + [s[|s| - 1]]
  }

  /**
   * `unique()` keeps the order of first appearance: each value stands where
   * it first occurs in `s`, relative to the others.
   */
  lemma {:induction false} DedupFirstSeen<T(!new)>(s: seq<T>)
    ensures forall i, j :: 0 <= i < j < |Dedup(s)| ==> IndexOf(s, Dedup(s)[i]) < IndexOf(s, Dedup(s)[j])
    decreases |s|
  {
    if s != [] {
      var front := s[..|s| - 1];
      var u := Dedup(front);
      DedupFirstSeen(front);
      IndexOfPrefix(front, s);
      if s[|s| - 1] !in u {
        var r := u + [s[|s| - 1]];
        assert r == Dedup(s);
        assert IndexOf(s, s[|s| - 1]) == |s| - 1 by {
          assert s[|s| - 1] !in front;
        }
        forall i, j | 0 <= i < j < |r|
          ensures IndexOf(s, r[i]) < IndexOf(s, r[j])
        {
          assert r[i] == u[i] && r[i] in front;
          if j == |u| {
            assert IndexOf(s, r[i]) == IndexOf(front, u[i]) < |front|;
          } else {
            assert r[j] == u[j];
          }
        }
      }
    }
  }

  /** Without repeats, the tail has no repeats and does not hold the head. */
  lemma TailNoDup<T>(s: seq<T>)
    requires NoDup(s) && s != []
    ensures NoDup(s[1..]) && s[0] !in s[1..]
  {
    assert forall j :: 0 <= j < |s| - 1 ==> s[1..][j] == s[j + 1];
  }

  /** A value of the tail other than the head is found one position further in the whole sequence. */
  lemma IndexOfTail<T>(s: seq<T>)
    requires s != []
    ensures forall x :: x in s[1..] && x != s[0] ==> IndexOf(s, x) == 1 + IndexOf(s[1..], x)
  {
  }

  /**
   * Putting the head in front of a list drawn in order from the tail gives
   * a list drawn in order from the whole sequence.
   */
  lemma ConsInOrder<T>(s: seq<T>, d: seq<T>)
    requires s != [] && s[0] !in s[1..] && NoDup(d)
    requires forall k :: 0 <= k < |d| ==> d[k] in s[1..]
    requires forall i, j :: 0 <= i < j < |d| ==> IndexOf(s[1..], d[i]) < IndexOf(s[1..], d[j])
    ensures NoDup([s[0]] + d)
    ensures forall i, j :: 0 <= i < j < |[s[0]] + d| ==> IndexOf(s, ([s[0]] + d)[i]) < IndexOf(s, ([s[0]] + d)[j])
  {
    forall i, j | 0 <= i < j < |[s[0]] + d|
      ensures ([s[0]] + d)[i] != ([s[0]] + d)[j] && IndexOf(s, ([s[0]] + d)[i]) < IndexOf(s, ([s[0]] + d)[j])
    {
      ConsPairInOrder(s, d, i, j);
    }
  }

  /** One pair of ConsInOrder: the head comes first, and tail values keep their order shifted by one. */
  lemma ConsPairInOrder<T>(s: seq<T>, d: seq<T>, i: nat, j: nat)
    requires s != [] && s[0] !in s[1..] && i < j <= |d|
    requires forall k :: 0 <= k < |d| ==> d[k] in s[1..]
    requires 0 < i ==> IndexOf(s[1..], d[i - 1]) < IndexOf(s[1..], d[j - 1])
    ensures ([s[0]] + d)[i] in s && ([s[0]] + d)[j] in s
    ensures ([s[0]] + d)[i] != ([s[0]] + d)[j] && IndexOf(s, ([s[0]] + d)[i]) < IndexOf(s, ([s[0]] + d)[j])
  {
    IndexOfTail(s);
    var y := d[j - 1];
    assert ([s[0]] + d)[j] == y && y in s[1..] && y != s[0];
    if i > 0 {
      var x := d[i - 1];
      assert ([s[0]] + d)[i] == x && x in s[1..] && x != s[0];
    }
  }

  /** A value found in a prefix is found at the same position in the whole sequence. */
  lemma {:induction false} IndexOfPrefix<T>(front: seq<T>, s: seq<T>)
    requires |front| <= |s| && s[..|front|] == front
    ensures forall x :: x in front ==> IndexOf(s, x) == IndexOf(front, x)
  {
    forall x | x in front
      ensures IndexOf(s, x) == IndexOf(front, x)
    {
      var k := IndexOf(front, x);
      assert s[k] == x;
      assert forall j :: 0 <= j < k ==> s[j] == front[j];
    }
  }

  /** Python's list.index: the position of the first occurrence. */
  function IndexOf<T(==)>(s: seq<T>, x: T): (k: nat)
    requires x in s
    ensures k < |s| && s[k] == x
    ensures forall j :: 0 <= j < k ==> s[j] != x
  {
    if s[0] == x then 0 else 1 + IndexOf(s[1..], x)
  }
}
