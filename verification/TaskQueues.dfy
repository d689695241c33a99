/**
  The linked queues of server_code/shinjuku/track_us/dispatch.h: task queues with head and tail, the queue of
  finished requests, and the choice of a queue by waiting time.
 */
module TaskQueues {
  import opened Widths
  import opened Pointers
  import opened Wrappers

  datatype Task = Task(runnable: int, req: int, kind: nat, category: nat, timestamp: int)

  /** A cell; for a finished request the first word is the request, and the pool's link once the cell is free. */
  datatype Node<T> = Node(item: T, next: Ptr)

  ghost predicate NodeAt<T>(cells: map<nat, Node<T>>, order: seq<nat>, i: nat)
    requires i < |order|
  {
    order[i] in cells && cells[order[i]].next == Place(order, i + 1)
  }

  ghost predicate Linked<T>(cells: map<nat, Node<T>>, head: Ptr, order: seq<nat>)
  {
    && head == Place(order, 0)
    && (forall i {:trigger NodeAt(cells, order, i)} :: 0 <= i < |order| ==> NodeAt(cells, order, i))
    && (forall i, j :: 0 <= i < j < |order| ==> order[i] != order[j])
  }

  /** The items in order. */
  function Items<T>(cells: map<nat, Node<T>>, order: seq<nat>): (s: seq<T>)
    requires forall i :: 0 <= i < |order| ==> order[i] in cells
    ensures |s| == |order| && forall i :: 0 <= i < |s| ==> s[i] == cells[order[i]].item
  {
    seq(|order|, i requires 0 <= i < |order| => cells[order[i]].item)
  }

  lemma LinkedIn<T>(cells: map<nat, Node<T>>, head: Ptr, order: seq<nat>)
    requires Linked(cells, head, order)
    ensures forall i :: 0 <= i < |order| ==> order[i] in cells
  {
    forall i | 0 <= i < |order|
      ensures order[i] in cells
    {
      assert NodeAt(cells, order, i);
    }
  }

  lemma Pushed<T>(cells: map<nat, Node<T>>, head: Ptr, order: seq<nat>, a: nat, x: T)
    requires Linked(cells, head, order) && a !in cells
    ensures Linked(cells[a := Node(x, head)], At(a), [a] + order) && a !in order
  {
    LinkedIn(cells, head, order);
    var u, o := cells[a := Node(x, head)], [a] + order;
    forall i | 0 <= i < |o|
      ensures NodeAt(u, o, i)
    {
      if i > 0 { assert NodeAt(cells, order, i - 1); }
    }
  }

  lemma Appended<T>(cells: map<nat, Node<T>>, head: Ptr, order: seq<nat>, a: nat, x: T)
    requires Linked(cells, head, order) && a !in cells && order != []
    ensures var l := order[|order| - 1];
            && l in cells && a !in order
            && Linked(cells[l := cells[l].(next := At(a))][a := Node(x, Null)], head, order + [a])
  {
    LinkedIn(cells, head, order);
    var l, o := order[|order| - 1], order + [a];
    var u := cells[l := cells[l].(next := At(a))][a := Node(x, Null)];
    forall i | 0 <= i < |o|
      ensures NodeAt(u, o, i)
    {
      if i < |order| { assert NodeAt(cells, order, i); }
    }
  }

  lemma Popped<T>(cells: map<nat, Node<T>>, head: Ptr, order: seq<nat>)
    requires Linked(cells, head, order) && order != []
    ensures order[0] in cells && Linked(cells - {order[0]}, cells[order[0]].next, order[1..])
  {
    LinkedIn(cells, head, order);
    var u, o := cells - {order[0]}, order[1..];
    assert NodeAt(cells, order, 0);
    forall i | 0 <= i < |o|
      ensures NodeAt(u, o, i)
    {
      assert NodeAt(cells, order, i + 1);
    }
  }

  class TaskQueue {
    var cells: map<nat, Node<Task>>
    var head: Ptr
    var tail: Ptr
    ghost var order: seq<nat>

    ghost predicate Valid()
      reads this
    {
      && Linked(cells, head, order)
      && (forall i :: 0 <= i < |order| ==> order[i] in cells)
      && tail == if order == [] then Null else At(order[|order| - 1])
    }

    ghost function Contents(): seq<Task>
      reads this
      requires Valid()
    {
      Items(cells, order)
    }

    constructor ()
      ensures Valid() && Contents() == []
    {
      cells, head, tail, order := map[], Null, Null, [];
    }

    /** tskq_enqueue_head; `cell` is what the pool gives. */
    method EnqueueHead(x: Task, cell: nat)
      requires Valid() && cell !in cells
      modifies this
      ensures Valid() && Contents() == [x] + old(Contents())
    {
      Pushed(cells, head, order, cell, x);
      ghost var was := Contents();
      cells := cells[cell := Node(x, head)];
      if head == Null {
        tail := At(cell);
      }
      head := At(cell);
      order := [cell] + order;
      assert Contents() == [x] + was;
    }

    /** tskq_enqueue_tail; without a cell the task is dropped. */
    method EnqueueTail(x: Task, answer: Ptr)
      requires Valid() && (answer.At? ==> answer.a !in cells)
      modifies this
      ensures Valid() && Contents() == if answer.At? then old(Contents()) + [x] else old(Contents())
    {
      if answer == Null {
        return;
      }
      var cell := answer.a;
      ghost var was := Contents();
      if head.At? {
        Appended(cells, head, order, cell, x);
        cells := cells[tail.a := cells[tail.a].(next := At(cell))];
        cells := cells[cell := Node(x, Null)];
        tail := At(cell);
      } else {
        Pushed(cells, head, order, cell, x);
        cells := cells[cell := Node(x, Null)];
        head, tail := At(cell), At(cell);
      }
      order := order + [cell];
      assert Contents() == was + [x];
    }

    /** tskq_dequeue */
    method Dequeue() returns (r: Option<Task>)
      requires Valid()
      modifies this
      ensures Valid()
      ensures r == if old(Contents()) == [] then None else Some(old(Contents())[0])
      ensures Contents() == if old(Contents()) == [] then [] else old(Contents())[1..]
    {
      if head == Null {
        return None;
      }
      ghost var was := Contents();
      Popped(cells, head, order);
      var cell := head.a;
      r := Some(cells[cell].item);
      head := cells[cell].next;
      cells := cells - {cell};
      if head == Null {
        tail := Null;
      }
      order := order[1..];
      assert Contents() == was[1..];
    }
  }

  class FinishedQueue {
    var cells: map<nat, Node<int>>
    var head: Ptr
    ghost var order: seq<nat>

    ghost predicate Valid()
      reads this
    {
      Linked(cells, head, order) && forall i :: 0 <= i < |order| ==> order[i] in cells
    }

    ghost function Contents(): seq<int>
      reads this
      requires Valid()
    {
      Items(cells, order)
    }

    constructor ()
      ensures Valid() && Contents() == []
    {
      cells, head, order := map[], Null, [];
    }

    /** request_enqueue: NULL is ignored. */
    method Enqueue(req: int, cell: nat)
      requires Valid() && cell !in cells
      modifies this
      ensures Valid() && Contents() == if req == 0 then old(Contents()) else [req] + old(Contents())
    {
      if req == 0 {
        return;
      }
      Pushed(cells, head, order, cell, req);
      ghost var was := Contents();
      cells := cells[cell := Node(req, head)];
      head := At(cell);
      order := [cell] + order;
      assert Contents() == [req] + was;
    }

    /** request_dequeue. The cell goes back to its pool before its link is read; the pool writes its own link, `link`,
        over the first word only, so the link read is still the queue's. */
    method Dequeue(link: int) returns (req: int)
      requires Valid()
      modifies this
      ensures Valid()
      ensures req == if old(Contents()) == [] then 0 else old(Contents())[0]
      ensures Contents() == if old(Contents()) == [] then [] else old(Contents())[1..]
    {
      if head == Null {
        return 0;
      }
      ghost var was := Contents();
      Popped(cells, head, order);
      var tmp := head.a;
      req := cells[tmp].item;
      cells := cells[tmp := cells[tmp].(item := link)];
      head := cells[tmp].next;
      assert cells - {tmp} == old(cells) - {tmp};
      cells := cells - {tmp};
      order := order[1..];
      assert Contents() == was[1..];
    }
  }

  // ----- Which queue -----

  /** A floating-point number, without rounding. */
  datatype Ratio = NaN | NegInf | Fin(r: real) | PosInf

  /** diff / slo in floating point: a zero objective gives an infinity, or no number when nothing has been waited. */
  function Overdue(stamp: int, slo: real, now: int): Ratio
  {
    var d := (now - stamp) as real;
    if slo != 0.0 then Fin(d / slo) else if d > 0.0 then PosInf else if d < 0.0 then NegInf else NaN
  }

  /** a > b; false whenever one of them is no number. */
  predicate Greater(a: Ratio, b: Ratio)
  {
    match (a, b)
    case (NaN, _) => false
    case (_, NaN) => false
    case (NegInf, _) => false
    case (PosInf, _) => !b.PosInf?
    case (Fin(x), NegInf) => true
    case (Fin(x), PosInf) => false
    case (Fin(x), Fin(y)) => x > y
  }

  /** Waiting for `w` with the objective `a` is no more overdue than waiting for `v` with the objective `b`, which is
      overdue; less so if `strict`. With two objectives of the same sign the products with the other objective decide,
      with two of different signs the other way round; waiting with an objective of zero is the most there is. */
  ghost predicate NoMore(w: int, a: real, v: int, b: real, strict: bool)
  {
    if a == 0.0 then w <= 0 || (b == 0.0 && !strict)
    else if b == 0.0 then true
    else
      var x, y := w as real * b, v as real * a;
      if (a > 0.0) == (b > 0.0) then if strict then x < y else x <= y
      else if strict then x > y else x >= y
  }

  /** smart_tskq_dequeue's choice among the time stamps at the heads of the queues: the first of the most overdue
      ones, and none when no task is overdue at all, even if queues are not empty. With a positive objective a task is
      overdue as soon as it has waited at all, with a negative one when its stamp lies ahead. */
  method SmartChoice(stamps: seq<Option<int>>, slos: seq<real>, now: int) returns (index: int)
    requires |slos| == |stamps|
    ensures index == -1 <==>
            forall i :: 0 <= i < |stamps| && stamps[i].Some? ==>
              if slos[i] >= 0.0 then now <= stamps[i].value else stamps[i].value <= now
    ensures index != -1 ==>
              && 0 <= index < |stamps| && stamps[index].Some?
              && (if slos[index] >= 0.0 then stamps[index].value < now else now < stamps[index].value)
              && forall i :: 0 <= i < |stamps| && stamps[i].Some? ==>
                   NoMore(now - stamps[i].value, slos[i], now - stamps[index].value, slos[index], i < index)
  {
    index := -1;
    var max := Fin(0.0);
    var i := 0;
    while i < |stamps|
      invariant 0 <= i <= |stamps| && -1 <= index < i && !max.NaN? && !Greater(Fin(0.0), max)
      invariant index == -1 ==> max == Fin(0.0)
      invariant index != -1 ==> stamps[index].Some? && max == Overdue(stamps[index].value, slos[index], now)
      invariant index != -1 ==> Greater(max, Fin(0.0))
      invariant forall k :: 0 <= k < i && stamps[k].Some? ==> !Greater(Overdue(stamps[k].value, slos[k], now), max)
      invariant forall k :: 0 <= k < index && stamps[k].Some? ==> Overdue(stamps[k].value, slos[k], now) != max
    {
      if stamps[i].Some? {
        var current := Overdue(stamps[i].value, slos[i], now);
        if Greater(current, max) {
          max := current;
          index := i;
        }
      }
      i := i + 1;
    }
    forall k | 0 <= k < |stamps| && stamps[k].Some?
      ensures Greater(Overdue(stamps[k].value, slos[k], now), Fin(0.0)) <==>
              if slos[k] >= 0.0 then stamps[k].value < now else now < stamps[k].value
    {
      OverdueSign(stamps[k].value, slos[k], now);
    }
    if index != -1 {
      forall k | 0 <= k < |stamps| && stamps[k].Some?
        ensures NoMore(now - stamps[k].value, slos[k], now - stamps[index].value, slos[index], k < index)
      {
        OverdueOrder(stamps[k].value, slos[k], stamps[index].value, slos[index], now, k < index);
      }
    }
  }

  /** With a positive objective a task is overdue as soon as it has waited at all, with a negative one when its stamp
      lies ahead; a zero objective makes any waiting the most there is. */
  lemma OverdueSign(stamp: int, slo: real, now: int)
    ensures Greater(Overdue(stamp, slo, now), Fin(0.0)) <==> if slo >= 0.0 then stamp < now else now < stamp
    ensures slo == 0.0 && stamp < now ==> Overdue(stamp, slo, now) == PosInf
  {
    if slo != 0.0 {
      var d := (now - stamp) as real;
      assert d / slo * slo == d;
    }
  }

  /** Quotients compare like the products with the other divisor, or the other way round. */
  lemma Quotients(a: real, b: real, c: real, d: real)
    requires b != 0.0 && d != 0.0
    ensures a / b == c / d <==> a * d == c * b
    ensures a / b > c / d <==> if (b > 0.0) == (d > 0.0) then a * d > c * b else a * d < c * b
  {
    var x, y := a / b, c / d;
    assert a == x * b && c == y * d;
    assert a * d == x * (b * d) && c * b == y * (b * d);
    assert (b > 0.0) == (d > 0.0) <==> b * d > 0.0;
    Scaled(x, y, b * d);
  }

  lemma Scaled(x: real, y: real, k: real)
    requires k != 0.0
    ensures x == y <==> x * k == y * k
    ensures x > y <==> if k > 0.0 then x * k > y * k else x * k < y * k
  {
    assert x * k - y * k == (x - y) * k;
  }

  /** Of two tasks, which is overdue more. */
  lemma OverdueOrder(s: int, a: real, t: int, b: real, now: int, strict: bool)
    requires Greater(Overdue(t, b, now), Fin(0.0))
    requires !Greater(Overdue(s, a, now), Overdue(t, b, now))
    requires strict ==> Overdue(s, a, now) != Overdue(t, b, now)
    ensures NoMore(now - s, a, now - t, b, strict)
  {
    if a != 0.0 && b != 0.0 { Quotients((now - s) as real, a, (now - t) as real, b); }
  }

  // ----- Which worker -----

  /** The start of rq_update in the Horus version: the worker whose identity the packet names, 255 for none. The test
      that is to catch that compares a pointer with -1, and is never true. */
  method CoreFor(dst: nat, ports: seq<nat>) returns (core: nat)
    requires dst < WRAP16 && |ports| <= 16
    ensures (exists i :: 0 <= i < |ports| && ports[i] == (dst + 1) % WRAP16) <==> core < |ports|
    ensures core < |ports| ==> ports[core] == (dst + 1) % WRAP16 && forall i :: core < i < |ports| ==>
              ports[i] != ports[core]
    ensures core >= |ports| ==> core == 255
  {
    var id := (dst + 1) % WRAP16;
    core := 255;
    var i := 0;
    while i < |ports|
      invariant 0 <= i <= |ports|
      invariant core == 255 || (core < i && ports[core] == id)
      invariant if core == 255 then forall k :: 0 <= k < i ==> ports[k] != id
                else forall k :: core < k < i ==> ports[k] != id
    {
      if id == ports[i] {
        core := i;
      }
      i := i + 1;
    }
  }
}
