/**
 The fair-share dispatcher: one FIFO queue per tenant, served in rotation.
 */
module FairShare {
  import opened Domain
  import opened Names

  datatype Fair<T> = Fair(queues: map<string, seq<T>>, order: seq<string>) {
    /** The rotation lists exactly the tenants that have items, once each. */
    ghost predicate Valid() {
      && NoDuplicates(order)
      && Elements(order) == queues.Keys
      && forall t :: t in queues ==> queues[t] != []
    }

    function Items(t: string): seq<T> {
      if t in queues then queues[t] else []
    }

    function Pushed(t: string, x: T): Fair<T> {
      Fair(queues[t := Items(t) + [x]], if t in queues then order else order + [t])
    }
  }

  datatype Pop<T> = Pop(served: Option<(string, T)>, after: Fair<T>)

  /** Tries up to `rounds` tenants from the front of the rotation. */
  function PopFrom<T>(f: Fair<T>, rounds: nat): Pop<T>
    decreases rounds
  {
    if rounds == 0 || f.order == [] then Pop(None, f)
    else
      var t, rest := f.order[0], f.order[1..];
      if f.Items(t) == [] then PopFrom(f.(order := rest), rounds - 1)
      else
        var item, left := f.Items(t)[0], f.Items(t)[1..];
        Pop(Some((t, item)),
            if left != [] then Fair(f.queues[t := left], rest + [t]) else Fair(f.queues - {t}, rest))
  }

  function Popped<T>(f: Fair<T>): Pop<T> {
    PopFrom(f, |f.order|)
  }

  class FairShareDispatcher<T> {
    var queues: map<string, seq<T>>
    var order: seq<string>

    function Contents(): Fair<T>
      reads this
    {
      Fair(queues, order)
    }

    constructor ()
      ensures Contents() == Fair(map[], []) && Contents().Valid()
    {
      queues, order := map[], [];
      new;
      assert Elements(order) == queues.Keys;
    }

    method Push(tenant: string, item: T)
      modifies this
      ensures Contents() == old(Contents()).Pushed(tenant, item)
      ensures old(Contents().Valid()) ==> Contents().Valid()
    {
      if old(Contents().Valid()) { PushKeepsValid(Contents(), tenant, item); }
      if tenant !in queues {
        order := order + [tenant];
      }
      queues := queues[tenant := (if tenant in queues then queues[tenant] else []) + [item]];
    }

    method PopNext() returns (served: Option<(string, T)>)
      modifies this
      ensures Pop(served, Contents()) == Popped(old(Contents()))
      ensures old(Contents().Valid()) ==> Contents().Valid() && (served == None <==> old(queues) == map[])
    {
      ghost var was := Contents();
      if was.Valid() { PopServesFirst(was); }
      var rounds := |order|;
      while rounds > 0
        invariant rounds == |order| && queues == old(queues)
        invariant Popped(was) == PopFrom(Contents(), rounds)
      {
        rounds := rounds - 1;
        var tenant := order[0];
        order := order[1..];
        if tenant in queues && queues[tenant] != [] {
          var item, left := queues[tenant][0], queues[tenant][1..];
          if left != [] {
            queues := queues[tenant := left];
            order := order + [tenant];
          } else {
            queues := queues - {tenant};
          }
          return Some((tenant, item));
        }
      }
      return None;
    }
  }

  // ----- the invariant

  lemma PushKeepsValid<T>(f: Fair<T>, t: string, x: T)
    requires f.Valid()
    ensures f.Pushed(t, x).Valid()
  {
    var g := f.Pushed(t, x);
    assert Elements(f.order + [t]) == Elements(f.order) + {t};
    assert t in f.queues <==> t in Elements(f.order);
  }

  /** A pop serves the tenant in front, oldest item first, and sends it to the back if it has more. */
  lemma PopServesFirst<T>(f: Fair<T>)
    requires f.Valid()
    ensures Popped(f).after.Valid()
    ensures Popped(f).served == None <==> f.queues == map[]
    ensures f.order != [] ==>
      && Popped(f).served == Some((f.order[0], f.Items(f.order[0])[0]))
      && forall t :: Popped(f).after.Items(t) == if t == f.order[0] then f.Items(t)[1..] else f.Items(t)
  {
    if f.order == [] {
      assert Elements(f.order) == {};
      assert f.queues == map[];
    } else {
      assert f.order[0] in Elements(f.order);
      RotationStaysValid(f);
    }
  }

  lemma RotationStaysValid<T>(f: Fair<T>)
    requires f.Valid() && f.order != []
    ensures var t, rest := f.order[0], f.order[1..];
      && t in f.queues && f.queues[t] != []
      && Fair(f.queues[t := f.queues[t][1..]], rest + [t]).Valid() == (|f.queues[t]| > 1)
      && Fair(f.queues - {t}, rest).Valid()
  {
    var t, rest := f.order[0], f.order[1..];
    assert t in Elements(f.order) && f.order == [t] + rest;
    assert Elements(rest) == Elements(f.order) - {t};
    assert Elements(rest + [t]) == Elements(f.order);
    assert t in f.queues[t := f.queues[t][1..]];
  }

  // ----- whole runs

  datatype Op<T> = Put(tenant: string, item: T) | Take

  function Do<T>(f: Fair<T>, op: Op<T>): Fair<T> {
    match op
    case Put(t, x) => f.Pushed(t, x)
    case Take => Popped(f).after
  }

  function DoAll<T>(f: Fair<T>, ops: seq<Op<T>>): Fair<T>
    decreases |ops|
  {
    if ops == [] then f else DoAll(Do(f, ops[0]), ops[1..])
  }

  function Takes<T>(ops: seq<Op<T>>): nat {
    if ops == [] then 0 else (if ops[0].Take? then 1 else 0) + Takes(ops[1..])
  }

  function PutBy<T>(op: Op<T>, t: string): seq<T> {
    if op.Put? && op.tenant == t then [op.item] else []
  }

  function TakenBy<T>(f: Fair<T>, op: Op<T>, t: string): seq<T> {
    var served := if op.Take? then Popped(f).served else None;
    if served.Some? && served.value.0 == t then [served.value.1] else []
  }

  /** What was put in for a tenant, in order. */
  function PutFor<T>(ops: seq<Op<T>>, t: string): seq<T> {
    if ops == [] then [] else PutBy(ops[0], t) + PutFor(ops[1..], t)
  }

  /** What was taken out for a tenant, in order. */
  function TakenFor<T>(f: Fair<T>, ops: seq<Op<T>>, t: string): seq<T>
    decreases |ops|
  {
    if ops == [] then [] else TakenBy(f, ops[0], t) + TakenFor(Do(f, ops[0]), ops[1..], t)
  }

  lemma {:induction false} RunKeepsValid<T>(f: Fair<T>, ops: seq<Op<T>>)
    requires f.Valid()
    ensures DoAll(f, ops).Valid()
    decreases |ops|
  {
    if ops != [] {
      StepKeepsValid(f, ops[0]);
      RunKeepsValid(Do(f, ops[0]), ops[1..]);
    }
  }

  lemma StepKeepsValid<T>(f: Fair<T>, op: Op<T>)
    requires f.Valid()
    ensures Do(f, op).Valid()
  {
    match op
    case Put(t, x) => PushKeepsValid(f, t, x);
    case Take => PopServesFirst(f);
  }

  lemma OneInOneOut<T>(f: Fair<T>, op: Op<T>, t: string)
    requires f.Valid()
    ensures f.Items(t) + PutBy(op, t) == TakenBy(f, op, t) + Do(f, op).Items(t)
  {
    match op
    case Put(_, _) =>
    case Take => TakenIsFirst(f, t);
  }

  lemma TakenIsFirst<T>(f: Fair<T>, t: string)
    requires f.Valid()
    ensures f.Items(t) == TakenBy(f, Take, t) + Popped(f).after.Items(t)
  {
    PopServesFirst(f);
    if f.order != [] && f.order[0] == t {
      assert t in Elements(f.order);
      var items := f.Items(t);
      assert items == [items[0]] + items[1..];
    }
  }

  /** FIFO and conservation: per tenant, what was there and came in is what went out and is left, in that order. */
  lemma {:induction false} FirstInFirstOut<T>(f: Fair<T>, ops: seq<Op<T>>, t: string)
    requires f.Valid()
    ensures f.Items(t) + PutFor(ops, t) == TakenFor(f, ops, t) + DoAll(f, ops).Items(t)
    decreases |ops|
  {
    if ops == [] {
      assert f.Items(t) + [] == [] + f.Items(t);
    } else {
      var g := Do(f, ops[0]);
      StepKeepsValid(f, ops[0]);
      FirstInFirstOut(g, ops[1..], t);
      OneInOneOut(f, ops[0], t);
      Rearrange(f.Items(t), PutBy(ops[0], t), PutFor(ops[1..], t), TakenBy(f, ops[0], t), g.Items(t));
      Associate(TakenBy(f, ops[0], t), TakenFor(g, ops[1..], t), DoAll(f, ops).Items(t));
    }
  }

  lemma Rearrange<T>(a: seq<T>, b: seq<T>, c: seq<T>, d: seq<T>, e: seq<T>)
    requires a + b == d + e
    ensures a + (b + c) == d + (e + c)
  {
    assert a + (b + c) == (a + b) + c;
    assert d + (e + c) == (d + e) + c;
  }

  /**
   Bounded bypass: a tenant at position `p` of the rotation is served by the pop
   after the next `p`, with its oldest item, whatever is pushed in between.
   */
  lemma {:induction false} ServedInTurn<T>(f: Fair<T>, ops: seq<Op<T>>, p: nat)
    requires f.Valid() && p < |f.order| && Takes(ops) == p
    ensures var t := f.order[p]; Popped(DoAll(f, ops)).served == Some((t, f.Items(t)[0]))
    decreases |ops|
  {
    var t := f.order[p];
    assert t in Elements(f.order);
    if ops == [] {
      PopServesFirst(f);
    } else {
      var g := Do(f, ops[0]);
      StepKeepsValid(f, ops[0]);
      MovesUp(f, ops[0], p);
      ServedInTurn(g, ops[1..], if ops[0].Take? then p - 1 else p);
    }
  }

  /** A push leaves a tenant's place alone, a pop moves it one up; its oldest item stays. */
  lemma MovesUp<T>(f: Fair<T>, op: Op<T>, p: nat)
    requires f.Valid() && p < |f.order| && (op.Take? ==> p > 0)
    ensures var g, at := Do(f, op), if op.Take? then p - 1 else p;
      && at < |g.order| && g.order[at] == f.order[p]
      && f.Items(f.order[p]) != [] && g.Items(f.order[p]) != [] && g.Items(f.order[p])[0] == f.Items(f.order[p])[0]
  {
    var t := f.order[p];
    assert t in Elements(f.order);
    if op.Take? {
      PopServesFirst(f);
      assert f.order[0] in Elements(f.order) && f.order[1..][p - 1] == t;
    }
  }
}
