/** First occurrences: the specification shared by every source's dedupe loop,
    and the answers a source gets from the network. */
module Dedupe {
  import opened Core

  datatype Answer<T> = Got(value: T) | Failed(error: string)

  /** The positions of the first occurrences of the non-empty ids, in order. */
  function Firsts(ids: seq<string>): (at: seq<nat>)
    ensures forall p :: 0 <= p < |at| ==> at[p] < |ids|
  {
    if ids == [] then []
    else
      var n := |ids| - 1;
      Firsts(ids[..n]) + if ids[n] != "" && ids[n] !in ids[..n] then [n] else []
  }

  lemma FirstsAdd(ids: seq<string>, x: string)
    ensures Firsts(ids + [x]) == Firsts(ids) + if x != "" && x !in ids then [|ids|] else []
  {
    assert (ids + [x])[..|ids|] == ids;
  }

  predicate IsFirst(ids: seq<string>, i: int) {
    0 <= i < |ids| && ids[i] != "" && forall j :: 0 <= j < i ==> ids[j] != ids[i]
  }

  lemma {:induction false} FirstsInOrder(ids: seq<string>)
    ensures forall p, q :: 0 <= p < q < |Firsts(ids)| ==> Firsts(ids)[p] < Firsts(ids)[q]
  {
    if ids != [] {
      FirstsInOrder(ids[..|ids| - 1]);
    }
  }

  lemma {:induction false} FirstsExact(ids: seq<string>, i: nat)
    ensures i in Firsts(ids) <==> IsFirst(ids, i)
  {
    if ids != [] {
      var n := |ids| - 1;
      FirstsExact(ids[..n], i);
      assert i < n ==> (IsFirst(ids, i) <==> IsFirst(ids[..n], i));
      assert IsFirst(ids, n) <==> ids[n] != "" && ids[n] !in ids[..n];
    }
  }

  lemma {:induction false} FirstOf(ids: seq<string>, x: string) returns (i: nat)
    requires x in ids && x != ""
    ensures IsFirst(ids, i) && ids[i] == x
  {
    var n := |ids| - 1;
    if x in ids[..n] {
      i := FirstOf(ids[..n], x);
    } else {
      i := n;
    }
  }

  /** Firsts lists exactly the first occurrences, in increasing order; so the
      ids they carry are distinct, non-empty and complete. */
  lemma FirstsMeans(ids: seq<string>)
    ensures forall i: nat :: i in Firsts(ids) <==> IsFirst(ids, i)
    ensures forall p, q :: 0 <= p < q < |Firsts(ids)| ==> Firsts(ids)[p] < Firsts(ids)[q]
    ensures forall p, q :: 0 <= p < q < |Firsts(ids)| ==> ids[Firsts(ids)[p]] != ids[Firsts(ids)[q]]
    ensures forall x :: x in ids && x != "" ==> exists p :: 0 <= p < |Firsts(ids)| && ids[Firsts(ids)[p]] == x
  {
    FirstsInOrder(ids);
    forall i: nat ensures i in Firsts(ids) <==> IsFirst(ids, i) {
      FirstsExact(ids, i);
    }
    forall p, q | 0 <= p < q < |Firsts(ids)|
      ensures ids[Firsts(ids)[p]] != ids[Firsts(ids)[q]]
    {
      FirstsExact(ids, Firsts(ids)[q]);
    }
    forall x | x in ids && x != ""
      ensures exists p :: 0 <= p < |Firsts(ids)| && ids[Firsts(ids)[p]] == x
    {
      var i := FirstOf(ids, x);
      FirstsExact(ids, i);
      var p :| 0 <= p < |Firsts(ids)| && Firsts(ids)[p] == i;
      assert ids[Firsts(ids)[p]] == x;
    }
  }

  function Pick<T>(xs: seq<T>, at: seq<nat>): seq<T>
    requires forall p :: 0 <= p < |at| ==> at[p] < |xs|
  {
    seq(|at|, p requires 0 <= p < |at| => xs[at[p]])
  }

  function Distinct(ids: seq<string>): seq<string> {
    Pick(ids, Firsts(ids))
  }

  lemma DistinctAdd(ids: seq<string>, x: string)
    ensures Distinct(ids + [x]) == Distinct(ids) + if x != "" && x !in ids then [x] else []
  {
    FirstsAdd(ids, x);
  }

  lemma {:induction false} DistinctGrows(ids: seq<string>, k: nat)
    requires k <= |ids|
    ensures Distinct(ids[..k]) <= Distinct(ids)
    decreases |ids| - k
  {
    if k < |ids| {
      DistinctAdd(ids[..k], ids[k]);
      assert ids[..k] + [ids[k]] == ids[..k + 1];
      DistinctGrows(ids, k + 1);
    } else {
      assert ids[..k] == ids;
    }
  }

  lemma {:induction false} FirstsOfDistinct(ids: seq<string>)
    requires forall i :: 0 <= i < |ids| ==> ids[i] != ""
    requires forall i, j :: 0 <= i < j < |ids| ==> ids[i] != ids[j]
    ensures Distinct(ids) == ids
  {
    if ids != [] {
      var n := |ids| - 1;
      FirstsOfDistinct(ids[..n]);
      DistinctAdd(ids[..n], ids[n]);
      assert ids[..n] + [ids[n]] == ids;
    }
  }

  /** No error when every answer arrived, else the error of the first failure. */
  ghost predicate FirstError<T>(answers: seq<Answer<T>>, err: Option<string>) {
    if err.None? then forall i :: 0 <= i < |answers| ==> answers[i].Got?
    else exists i :: 0 <= i < |answers| && answers[i] == Failed(err.value) && forall j :: 0 <= j < i ==> answers[j].Got?
  }

  lemma FirstErrorAdd<T>(answers: seq<Answer<T>>, a: Answer<T>, err: Option<string>)
    requires FirstError(answers, err)
    ensures FirstError(answers + [a], if err.None? && a.Failed? then Some(a.error) else err)
  {
    var more := answers + [a];
    if err.Some? {
      var i :| 0 <= i < |answers| && answers[i] == Failed(err.value) && forall j :: 0 <= j < i ==> answers[j].Got?;
      assert more[i] == Failed(err.value);
    } else if a.Failed? {
      assert more[|answers|] == Failed(a.error);
    }
  }

  lemma FirstErrorNext<T>(answers: seq<Answer<T>>, n: nat, err: Option<string>)
    requires n < |answers| && FirstError(answers[..n], err)
    ensures FirstError(answers[..n + 1], if err.None? && answers[n].Failed? then Some(answers[n].error) else err)
  {
    FirstErrorAdd(answers[..n], answers[n], err);
    assert answers[..n + 1] == answers[..n] + [answers[n]];
  }
}
