/** Collections of tasks and the ids in them: when no id occurs twice. */
module TaskBags {
  import opened Scheduler

  function IdsOf(b: multiset<Task>): set<string> { set x | x in b :: x.id }

  ghost predicate UniqueBag(b: multiset<Task>) {
    (forall x :: b[x] <= 1) && forall x, y :: x in b && y in b && x.id == y.id ==> x == y
  }

  predicate DistinctIds(tasks: seq<Task>) {
    forall i, j :: 0 <= i < j < |tasks| ==> tasks[i].id != tasks[j].id
  }

  lemma UniqueSumParts(a: multiset<Task>, b: multiset<Task>)
    requires UniqueBag(a + b)
    ensures UniqueBag(a) && UniqueBag(b) && IdsOf(a) !! IdsOf(b)
  {
    assert forall x :: (a + b)[x] == a[x] + b[x];
    forall id | id in IdsOf(a)
      ensures id !in IdsOf(b)
    {
      var x :| x in a && x.id == id;
      forall y | y in b
        ensures y.id != id
      {
        assert x in a + b && y in a + b;
      }
    }
  }

  lemma UniqueSumWhole(a: multiset<Task>, b: multiset<Task>)
    requires UniqueBag(a) && UniqueBag(b) && IdsOf(a) !! IdsOf(b)
    ensures UniqueBag(a + b)
  {
    assert forall x :: x in a ==> x.id in IdsOf(a);
    assert forall x :: x in b ==> x.id in IdsOf(b);
    forall x
      ensures (a + b)[x] <= 1
    {
      assert (a + b)[x] == a[x] + b[x];
    }
  }

  lemma UniqueSum(a: multiset<Task>, b: multiset<Task>)
    ensures UniqueBag(a + b) <==> UniqueBag(a) && UniqueBag(b) && IdsOf(a) !! IdsOf(b)
  {
    hide UniqueBag, IdsOf;
    if UniqueBag(a + b) { UniqueSumParts(a, b); }
    if UniqueBag(a) && UniqueBag(b) && IdsOf(a) !! IdsOf(b) { UniqueSumWhole(a, b); }
  }

  lemma UniqueOne(x: Task)
    ensures UniqueBag(multiset{x}) && IdsOf(multiset{x}) == {x.id}
  {
  }

  lemma {:induction false} DistinctIsUnique(xs: seq<Task>)
    ensures DistinctIds(xs) <==> UniqueBag(multiset(xs))
  {
    if xs != [] {
      hide UniqueBag, IdsOf;
      var x, rest := xs[0], xs[1..];
      DistinctIsUnique(rest);
      assert xs == [x] + rest;
      assert multiset(xs) == multiset{x} + multiset(rest);
      UniqueSum(multiset{x}, multiset(rest));
      UniqueOne(x);
      IdsOfSeq(rest);
      DistinctSplit(x, rest);
    } else {
      assert UniqueBag(multiset{});
    }
  }

  lemma DistinctSplit(x: Task, rest: seq<Task>)
    ensures DistinctIds([x] + rest) <==> DistinctIds(rest) && forall k :: 0 <= k < |rest| ==> rest[k].id != x.id
  {
    var xs := [x] + rest;
    assert forall k :: 0 <= k < |rest| ==> rest[k] == xs[k + 1];
    if DistinctIds(xs) {
      forall i, j | 0 <= i < j < |rest|
        ensures rest[i].id != rest[j].id
      {
        assert xs[i + 1].id != xs[j + 1].id;
      }
      forall k | 0 <= k < |rest|
        ensures rest[k].id != x.id
      {
        assert xs[0].id != xs[k + 1].id;
      }
    }
  }

  lemma IdsOfSum(a: multiset<Task>, b: multiset<Task>)
    ensures IdsOf(a + b) == IdsOf(a) + IdsOf(b)
  {
  }

  lemma IdsOfSeq(xs: seq<Task>)
    ensures forall id :: id in IdsOf(multiset(xs)) <==> exists k :: 0 <= k < |xs| && xs[k].id == id
  {
    forall id | id in IdsOf(multiset(xs))
      ensures exists k :: 0 <= k < |xs| && xs[k].id == id
    {
      var x :| x in multiset(xs) && x.id == id;
      assert x in xs;
    }
    forall k | 0 <= k < |xs|
      ensures xs[k].id in IdsOf(multiset(xs))
    {
      assert xs[k] in multiset(xs);
    }
  }

  lemma {:induction false} WithoutTaskCount(xs: seq<Task>, id: string)
    ensures |WithoutTask(xs, id)| <= |xs|
    ensures |WithoutTask(xs, id)| < |xs| <==> exists k :: 0 <= k < |xs| && xs[k].id == id
    ensures |WithoutTask(xs, id)| == |xs| ==> WithoutTask(xs, id) == xs
  {
    if xs != [] {
      WithoutTaskCount(xs[1..], id);
      if exists k :: 0 <= k < |xs[1..]| && xs[1..][k].id == id {
        var k :| 0 <= k < |xs[1..]| && xs[1..][k].id == id;
        assert xs[k + 1].id == id;
      }
    }
  }

  lemma BagCons(x: Task, rest: seq<Task>)
    ensures forall y :: multiset([x] + rest)[y] == multiset(rest)[y] + if y == x then 1 else 0
  {
    assert multiset([x] + rest) == multiset{x} + multiset(rest);
  }

  lemma {:induction false} WithoutTaskMembers(xs: seq<Task>, id: string)
    ensures forall x :: multiset(WithoutTask(xs, id))[x] == if x.id == id then 0 else multiset(xs)[x]
  {
    if xs != [] {
      var rest := xs[1..];
      WithoutTaskMembers(rest, id);
      assert xs == [xs[0]] + rest;
      BagCons(xs[0], rest);
      BagCons(xs[0], WithoutTask(rest, id));
      assert [] + WithoutTask(rest, id) == WithoutTask(rest, id);
    }
  }

  lemma WithoutTaskBag(xs: seq<Task>, id: string)
    ensures |WithoutTask(xs, id)| <= |xs|
    ensures |WithoutTask(xs, id)| < |xs| <==> id in IdsOf(multiset(xs))
    ensures forall x :: multiset(WithoutTask(xs, id))[x] == if x.id == id then 0 else multiset(xs)[x]
    ensures |WithoutTask(xs, id)| == |xs| ==> WithoutTask(xs, id) == xs
  {
    hide WithoutTask, IdsOf;
    WithoutTaskCount(xs, id);
    WithoutTaskMembers(xs, id);
    IdsOfSeq(xs);
  }

  lemma RemovedBag(a: multiset<Task>, b: multiset<Task>, id: string)
    requires forall x: Task :: b[x] == if x.id == id then 0 else a[x]
    ensures UniqueBag(a) ==> UniqueBag(b)
    ensures IdsOf(b) == IdsOf(a) - {id}
  {
    assert forall x :: x in b <==> x in a && x.id != id;
  }
}
