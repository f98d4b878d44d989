/** Abstract contents of the kernel's intrusive lists: duplicate-free sequences
    of task numbers with insertion at a cursor and removal by identity. */
module Lists {

  ghost predicate NoDup(q: seq<nat>) {
    forall i, j :: 0 <= i < j < |q| ==> q[i] != q[j]
  }

  ghost predicate AllBelow(q: seq<nat>, n: nat) {
    forall i :: 0 <= i < |q| ==> q[i] < n
  }

  function IndexOf(q: seq<nat>, e: nat): (i: nat)
    requires e in q
    ensures i < |q| && q[i] == e
    ensures e !in q[..i]
  {
    if q[0] == e then 0 else 1 + IndexOf(q[1..], e)
  }

  function InsertAt(q: seq<nat>, k: nat, e: nat): (r: seq<nat>)
    requires k <= |q|
    ensures forall n {:trigger AllBelow(r, n)} :: AllBelow(q, n) && e < n ==> AllBelow(r, n)
  {
    q[..k] + [e] + q[k..]
  }

  function Remove(q: seq<nat>, e: nat): (r: seq<nat>)
    ensures forall n {:trigger AllBelow(r, n)} :: AllBelow(q, n) ==> AllBelow(r, n)
    ensures forall x :: x in r ==> x in q
    ensures |r| == if e in q then |q| - 1 else |q|
  {
    if e in q then var i := IndexOf(q, e); q[..i] + q[i + 1..] else q
  }

  lemma InsertAtMembers(q: seq<nat>, k: nat, e: nat)
    requires k <= |q|
    ensures forall x :: x in InsertAt(q, k, e) <==> x == e || x in q
    ensures NoDup(q) && e !in q ==> NoDup(InsertAt(q, k, e))
  {
    assert q == q[..k] + q[k..];
  }

  lemma AppendMembers(q: seq<nat>, e: nat)
    ensures forall x :: x in q + [e] <==> x == e || x in q
    ensures NoDup(q) && e !in q ==> NoDup(q + [e])
  {
  }

  lemma RemoveMembers(q: seq<nat>, e: nat)
    requires NoDup(q)
    ensures forall x :: x in Remove(q, e) <==> x in q && x != e
    ensures NoDup(Remove(q, e))
    ensures e in q ==> |Remove(q, e)| == |q| - 1
  {
    if e in q {
      var i := IndexOf(q, e);
      var r := q[..i] + q[i + 1..];
      assert forall x :: x in q && x != e ==> x in r by {
        forall x | x in q && x != e ensures x in r {
          var j :| 0 <= j < |q| && q[j] == x;
          if j < i { assert r[j] == x; } else { assert r[j - 1] == x; }
        }
      }
    }
  }

  lemma RemoveHead(q: seq<nat>)
    requires q != []
    ensures Remove(q, q[0]) == q[1..]
  {
    assert IndexOf(q, q[0]) == 0;
  }
}
