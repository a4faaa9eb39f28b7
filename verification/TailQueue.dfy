/** The tail queue of include/queue.h. A pointer to a slot (`struct type **`) is modelled by
    the record the slot begins: `tqh_first`/`tqh_last` of a head and `tqe_next`/`tqe_prev` of
    an entry lie in the same order, which is what TAILQ_LAST and TAILQ_PREV rely on when they
    take one for the other. */
module TailQueue {

  /** A head, or the entry field of an element. */
  class Link<T> {
    /** `tqh_first`, or `tqe_next`. */
    var first: Elem?<T>
    /** `tqh_last`, or `tqe_prev`: the record with the slot that points here. */
    var last: Link<T>

    constructor ()
    {
      first := null;
      last := this;
    }
  }

  class Elem<T> {
    const link: Link<T>
    var value: T

    constructor (value: T)
      ensures this.value == value && fresh(link)
    {
      this.value := value;
      link := new Link<T>();
    }
  }

  // ------------------------------------------------------------ well-formed queues

  /** The record whose slot holds element `i`: the head, or the element before. */
  ghost function At<T>(head: Link<T>, es: seq<Elem<T>>, i: nat): Link<T>
    requires i <= |es|
  {
    if i == 0 then head else es[i - 1].link
  }

  ghost function Links<T>(head: Link<T>, es: seq<Elem<T>>): set<Link<T>> {
    {head} + set e | e in es :: e.link
  }

  /** No record occurs twice. */
  ghost predicate Apart<T>(head: Link<T>, es: seq<Elem<T>>) {
    forall i, j :: 0 <= i < j <= |es| ==> At(head, es, i) != At(head, es, j)
  }

  /** Slot `i` points at element `i`; the last slot is empty. */
  ghost predicate Forward<T>(head: Link<T>, es: seq<Elem<T>>, i: nat)
    requires i <= |es|
    reads At(head, es, i)
  {
    At(head, es, i).first == if i < |es| then es[i] else null
  }

  /** Record `i` points back at the slot before it, and the head at the last one. */
  ghost predicate Backward<T>(head: Link<T>, es: seq<Elem<T>>, i: nat)
    requires i <= |es|
    reads At(head, es, i)
  {
    At(head, es, i).last == At(head, es, if i == 0 then |es| else i - 1)
  }

  ghost predicate Queue<T>(head: Link<T>, es: seq<Elem<T>>)
    reads Links(head, es)
  {
    && Apart(head, es)
    && (forall i :: 0 <= i <= |es| ==> Forward(head, es, i))
    && (forall i :: 0 <= i <= |es| ==> Backward(head, es, i))
  }

  /** An element that is in none of the records of a queue. */
  ghost predicate Outside<T>(elm: Elem<T>, head: Link<T>, es: seq<Elem<T>>) {
    forall i :: 0 <= i <= |es| ==> At(head, es, i) != elm.link
  }

  // ------------------------------------------------------------ the operations

  /** TAILQ_INIT. */
  method Init<T>(head: Link<T>)
    modifies head
    ensures Queue(head, [])
  {
    head.first := null;
    head.last := head;
  }

  function Inserted<T>(es: seq<Elem<T>>, k: nat, elm: Elem<T>): (r: seq<Elem<T>>)
    requires k <= |es|
    ensures |r| == |es| + 1 && r[k] == elm
    ensures forall i :: 0 <= i < k ==> r[i] == es[i]
    ensures forall i :: k < i <= |es| ==> r[i] == es[i - 1]
  {
    es[..k] + [elm] + es[k..]
  }

  function Removed<T>(es: seq<Elem<T>>, k: nat): (r: seq<Elem<T>>)
    requires k < |es|
    ensures |r| == |es| - 1
    ensures forall i :: 0 <= i < k ==> r[i] == es[i]
    ensures forall i :: k <= i < |es| - 1 ==> r[i] == es[i + 1]
  {
    es[..k] + es[k + 1..]
  }

  /** Where the records of a queue are once an element is inserted. */
  lemma AtInserted<T>(head: Link<T>, es: seq<Elem<T>>, k: nat, elm: Elem<T>)
    requires k <= |es| && Apart(head, es) && Outside(elm, head, es)
    ensures var now := Inserted(es, k, elm);
      && (forall i :: 0 <= i <= k ==> At(head, now, i) == At(head, es, i))
      && At(head, now, k + 1) == elm.link
      && (forall i :: k + 1 < i <= |es| + 1 ==> At(head, now, i) == At(head, es, i - 1))
      && Apart(head, now)
  {
    var now := Inserted(es, k, elm);
    forall i | 0 <= i <= k ensures At(head, now, i) == At(head, es, i) {
    }
    forall i | k + 1 < i <= |es| + 1 ensures At(head, now, i) == At(head, es, i - 1) {
      assert now[i - 1] == es[i - 2];
    }
    forall i, j | 0 <= i < j <= |now| ensures At(head, now, i) != At(head, now, j) {
      if j <= k {
      } else if j == k + 1 {
      } else if i <= k {
        assert At(head, es, i) != At(head, es, j - 1);
      } else if i > k + 1 {
        assert At(head, es, i - 1) != At(head, es, j - 1);
      }
    }
  }

  /** Where they are once one is removed. */
  lemma AtRemoved<T>(head: Link<T>, es: seq<Elem<T>>, k: nat)
    requires k < |es| && Apart(head, es)
    ensures var now := Removed(es, k);
      && (forall i :: 0 <= i <= k ==> At(head, now, i) == At(head, es, i))
      && (forall i :: k < i < |es| ==> At(head, now, i) == At(head, es, i + 1))
      && Apart(head, now)
  {
    var now := Removed(es, k);
    forall i | 0 <= i <= k ensures At(head, now, i) == At(head, es, i) {
    }
    forall i | k < i < |es| ensures At(head, now, i) == At(head, es, i + 1) {
      assert now[i - 1] == es[i];
    }
    forall i, j | 0 <= i < j <= |now| ensures At(head, now, i) != At(head, now, j) {
      assert At(head, es, if i <= k then i else i + 1) != At(head, es, if j <= k then j else j + 1);
    }
  }

  /** What slot `k` and the records beside it hold. */
  lemma Slots<T>(head: Link<T>, es: seq<Elem<T>>, k: nat)
    requires Queue(head, es) && k <= |es|
    ensures Forward(head, es, k) && Backward(head, es, k) && Backward(head, es, 0)
    ensures k < |es| ==> Backward(head, es, k + 1)
    ensures forall i :: 0 < i <= |es| ==> At(head, es, i) != head
  {
    assert At(head, es, 0) == head;
  }

  /** TAILQ_INSERT_HEAD. */
  method InsertHead<T>(head: Link<T>, elm: Elem<T>, ghost es: seq<Elem<T>>)
    requires Queue(head, es) && Outside(elm, head, es)
    modifies Links(head, es), elm.link
    ensures Queue(head, Inserted(es, 0, elm))
  {
    ghost var now, n, at := Inserted(es, 0, elm), |es|, 0;
    AtInserted(head, es, at, elm);
    Slots(head, es, at);
    label Before:
    elm.link.first := head.first;
    if elm.link.first != null {
      head.first.link.last := elm.link;
    } else {
      head.last := elm.link;
    }
    head.first := elm;
    elm.link.last := head;
    forall i | 0 <= i <= n + 1 ensures Forward(head, now, i) && Backward(head, now, i) {
      var j := if i <= at then i else i - 1;
      assert old@Before(Forward(head, es, j)) && old@Before(Backward(head, es, j));
    }
  }

  /** TAILQ_INSERT_TAIL. */
  method InsertTail<T>(head: Link<T>, elm: Elem<T>, ghost es: seq<Elem<T>>)
    requires Queue(head, es) && Outside(elm, head, es)
    modifies Links(head, es), elm.link
    ensures Queue(head, Inserted(es, |es|, elm))
  {
    ghost var now, n, at := Inserted(es, |es|, elm), |es|, |es|;
    AtInserted(head, es, at, elm);
    Slots(head, es, at);
    label Before:
    elm.link.first := null;
    elm.link.last := head.last;
    head.last.first := elm;
    head.last := elm.link;
    forall i | 0 <= i <= n + 1 ensures Forward(head, now, i) && Backward(head, now, i) {
      var j := if i <= at then i else i - 1;
      assert old@Before(Forward(head, es, j)) && old@Before(Backward(head, es, j));
    }
  }

  /** TAILQ_INSERT_AFTER. */
  method InsertAfter<T>(head: Link<T>, listelm: Elem<T>, elm: Elem<T>, ghost es: seq<Elem<T>>, ghost k: nat)
    requires Queue(head, es) && Outside(elm, head, es)
    requires k < |es| && es[k] == listelm
    modifies Links(head, es), elm.link
    ensures Queue(head, Inserted(es, k + 1, elm))
  {
    ghost var now, n, at := Inserted(es, k + 1, elm), |es|, k + 1;
    AtInserted(head, es, at, elm);
    Slots(head, es, at);
    assert listelm.link == At(head, es, k + 1);
    label Before:
    elm.link.first := listelm.link.first;
    if elm.link.first != null {
      elm.link.first.link.last := elm.link;
    } else {
      head.last := elm.link;
    }
    listelm.link.first := elm;
    elm.link.last := listelm.link;
    forall i | 0 <= i <= n + 1 ensures Forward(head, now, i) && Backward(head, now, i) {
      var j := if i <= at then i else i - 1;
      assert old@Before(Forward(head, es, j)) && old@Before(Backward(head, es, j));
    }
  }

  /** TAILQ_INSERT_BEFORE, which does not need the head. */
  method InsertBefore<T>(ghost head: Link<T>, listelm: Elem<T>, elm: Elem<T>, ghost es: seq<Elem<T>>, ghost k: nat)
    requires Queue(head, es) && Outside(elm, head, es)
    requires k < |es| && es[k] == listelm
    modifies Links(head, es), elm.link
    ensures Queue(head, Inserted(es, k, elm))
  {
    ghost var now, n, at := Inserted(es, k, elm), |es|, k;
    AtInserted(head, es, at, elm);
    Slots(head, es, at);
    assert listelm.link == At(head, es, k + 1);
    label Before:
    elm.link.last := listelm.link.last;
    elm.link.first := listelm;
    listelm.link.last.first := elm;
    listelm.link.last := elm.link;
    forall i | 0 <= i <= n + 1 ensures Forward(head, now, i) && Backward(head, now, i) {
      var j := if i <= at then i else i - 1;
      assert old@Before(Forward(head, es, j)) && old@Before(Backward(head, es, j));
    }
  }

  /** TAILQ_REMOVE. */
  method Remove<T>(head: Link<T>, elm: Elem<T>, ghost es: seq<Elem<T>>, ghost k: nat)
    requires Queue(head, es) && k < |es| && es[k] == elm
    modifies Links(head, es)
    ensures Queue(head, Removed(es, k))
  {
    ghost var now, n := Removed(es, k), |es|;
    AtRemoved(head, es, k);
    Slots(head, es, k);
    Slots(head, es, k + 1);
    assert elm.link == At(head, es, k + 1);
    label Before:
    if elm.link.first != null {
      elm.link.first.link.last := elm.link.last;
    } else {
      head.last := elm.link.last;
    }
    elm.link.last.first := elm.link.first;
    forall i | 0 <= i < n ensures Forward(head, now, i) && Backward(head, now, i) {
      var j := if i <= k then i else i + 1;
      assert old@Before(Forward(head, es, j)) && old@Before(Backward(head, es, j));
    }
  }

  /** TAILQ_REPLACE. */
  method Replace<T>(head: Link<T>, elm: Elem<T>, elm2: Elem<T>, ghost es: seq<Elem<T>>, ghost k: nat)
    requires Queue(head, es) && k < |es| && es[k] == elm && Outside(elm2, head, es)
    modifies Links(head, es), elm2.link
    ensures Queue(head, es[k := elm2])
  {
    ghost var now, n := es[k := elm2], |es|;
    forall i | 0 <= i <= n ensures At(head, now, i) == if i == k + 1 then elm2.link else At(head, es, i) {
    }
    Slots(head, es, k);
    Slots(head, es, k + 1);
    assert elm.link == At(head, es, k + 1);
    label Before:
    elm2.link.first := elm.link.first;
    if elm2.link.first != null {
      elm2.link.first.link.last := elm2.link;
    } else {
      head.last := elm2.link;
    }
    elm2.link.last := elm.link.last;
    elm2.link.last.first := elm2;
    forall i | 0 <= i <= n ensures Forward(head, now, i) && Backward(head, now, i) {
      assert old@Before(Forward(head, es, i)) && old@Before(Backward(head, es, i));
    }
  }

  /** TAILQ_CONCAT: everything of the second queue goes to the end of the first. */
  method Concat<T>(head1: Link<T>, head2: Link<T>, ghost es1: seq<Elem<T>>, ghost es2: seq<Elem<T>>)
    requires Queue(head1, es1) && Queue(head2, es2)
    requires forall i, j :: 0 <= i <= |es1| && 0 <= j <= |es2| ==> At(head1, es1, i) != At(head2, es2, j)
    modifies Links(head1, es1), Links(head2, es2)
    ensures Queue(head1, es1 + es2) && Queue(head2, [])
  {
    ghost var now, n := es1 + es2, |es1|;
    Slots(head1, es1, 0);
    Slots(head1, es1, n);
    Slots(head2, es2, 0);
    Slots(head2, es2, |es2|);
    AtConcat(head1, head2, es1, es2);
    if head2.first != null {
      label Before:
      head1.last.first := head2.first;
      head2.first.link.last := head1.last;
      head1.last := head2.last;
      Init(head2);
      forall i | 0 <= i <= |now| ensures Forward(head1, now, i) && Backward(head1, now, i) {
        if i <= n {
          assert old@Before(Forward(head1, es1, i)) && old@Before(Backward(head1, es1, i));
        } else {
          assert old@Before(Forward(head2, es2, i - n)) && old@Before(Backward(head2, es2, i - n));
        }
      }
    } else {
      assert es1 + es2 == es1 && es2 == [];
    }
  }

  lemma AtConcat<T>(head1: Link<T>, head2: Link<T>, es1: seq<Elem<T>>, es2: seq<Elem<T>>)
    requires Apart(head1, es1) && Apart(head2, es2)
    requires forall i, j :: 0 <= i <= |es1| && 0 <= j <= |es2| ==> At(head1, es1, i) != At(head2, es2, j)
    ensures var now := es1 + es2;
      && (forall i :: 0 <= i <= |es1| ==> At(head1, now, i) == At(head1, es1, i))
      && (forall i :: |es1| < i <= |now| ==> At(head1, now, i) == At(head2, es2, i - |es1|))
      && Apart(head1, now)
  {
    var now := es1 + es2;
    forall i | 0 <= i <= |es1| ensures At(head1, now, i) == At(head1, es1, i) {
    }
    forall i | |es1| < i <= |now| ensures At(head1, now, i) == At(head2, es2, i - |es1|) {
      assert now[i - 1] == es2[i - 1 - |es1|];
    }
  }

  /** TAILQ_LAST: the slot `tqh_last` points at is taken for a head, and its `tqh_last` read. */
  method Last<T>(head: Link<T>, ghost es: seq<Elem<T>>) returns (e: Elem?<T>)
    requires Queue(head, es)
    ensures e == if es == [] then null else es[|es| - 1]
  {
    Slots(head, es, 0);
    Slots(head, es, |es|);
    if es != [] { Slots(head, es, |es| - 1); }
    e := head.last.last.first;
  }

  /** TAILQ_PREV, the same with the back link of an element. */
  method Prev<T>(elm: Elem<T>, ghost head: Link<T>, ghost es: seq<Elem<T>>, ghost k: nat) returns (e: Elem?<T>)
    requires Queue(head, es) && k < |es| && es[k] == elm
    ensures e == if k == 0 then null else es[k - 1]
  {
    assert elm.link == At(head, es, k + 1);
    Slots(head, es, k);
    Slots(head, es, |es|);
    if k > 0 { Slots(head, es, k - 1); }
    e := elm.link.last.last.first;
  }

  function Reversed<T>(s: seq<T>): (r: seq<T>)
    ensures |r| == |s|
  {
    if s == [] then [] else [s[|s| - 1]] + Reversed(s[..|s| - 1])
  }

  /** TAILQ_FOREACH_REVERSE visits the queue in exactly the reverse order. */
  method ForeachReverse<T>(head: Link<T>, ghost es: seq<Elem<T>>) returns (visited: seq<Elem<T>>)
    requires Queue(head, es)
    ensures visited == Reversed(es)
  {
    visited := [];
    var e := Last(head, es);
    ghost var k := |es|;
    assert es[..k] == es;
    while e != null
      invariant 0 <= k <= |es| && e == (if k == 0 then null else es[k - 1])
      invariant visited + Reversed(es[..k]) == Reversed(es)
      decreases k
    {
      assert es[..k][..k - 1] == es[..k - 1];
      assert visited + Reversed(es[..k]) == (visited + [e]) + Reversed(es[..k - 1]);
      visited := visited + [e];
      k := k - 1;
      e := Prev(e, head, es, k);
    }
  }
}
