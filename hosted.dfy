// Starting and stopping the hosted services (container.go:292-323), as functions of the
// services' answers to Start and Stop.

module Hosted {
  import opened Errors
  import opened Environment

  /** The loop of StartAsync, continued from service i. */
  function StartFrom(answer: Oracle, svcs: seq<Handle>, i: nat, calls: seq<Call>): (seq<Call>, Option<Error>)
    decreases |svcs| - i
  {
    if i >= |svcs| then (calls, None)
    else
      var c := StartCall(svcs[i]);
      match answer(c, calls)
      case Some(e) => (calls + [c], Some(IndexWrapped(i, e)))
      case None => StartFrom(answer, svcs, i + 1, calls + [c])
  }

  /** The loop of StopAsync with i services still to stop, the last of them first. */
  function StopFrom(answer: Oracle, svcs: seq<Handle>, i: nat, first: Option<Error>, calls: seq<Call>): (seq<Call>, Option<Error>)
    requires i <= |svcs|
  {
    if i == 0 then (calls, first)
    else
      var c := StopCall(svcs[i - 1]);
      var e := answer(c, calls);
      StopFrom(answer, svcs, i - 1, if first.None? && e.Some? then e else first, calls + [c])
  }

  // ----- reference descriptions -----

  function Starts(s: seq<Handle>): (r: seq<Call>)
    ensures |r| == |s| && forall j :: 0 <= j < |s| ==> r[j] == StartCall(s[j])
  {
    seq(|s|, j requires 0 <= j < |s| => StartCall(s[j]))
  }

  /** Stop calls for every service, last registered first. */
  function StopsReversed(s: seq<Handle>): (r: seq<Call>)
    ensures |r| == |s| && forall j :: 0 <= j < |s| ==> r[j] == StopCall(s[|s| - 1 - j])
  {
    seq(|s|, j requires 0 <= j < |s| => StopCall(s[|s| - 1 - j]))
  }

  /** What the j-th service answers to Start once the ones before it have started. */
  function StartAnswers(answer: Oracle, svcs: seq<Handle>, calls: seq<Call>): (r: seq<Option<Error>>)
    ensures |r| == |svcs|
  {
    seq(|svcs|, j requires 0 <= j < |svcs| => answer(StartCall(svcs[j]), calls + Starts(svcs[..j])))
  }

  /** What the j-th service to be stopped answers to Stop. */
  function StopAnswers(answer: Oracle, svcs: seq<Handle>, calls: seq<Call>): (r: seq<Option<Error>>)
    ensures |r| == |svcs|
  {
    var stops := StopsReversed(svcs);
    seq(|svcs|, j requires 0 <= j < |svcs| => answer(stops[j], calls + stops[..j]))
  }

  /** The position of the first error, or the length when there is none. */
  function FirstError(s: seq<Option<Error>>): (k: nat)
    ensures k <= |s|
    ensures forall j :: 0 <= j < k ==> s[j].None?
    ensures k < |s| ==> s[k].Some?
  {
    if s == [] then 0
    else if s[0].Some? then 0
    else 1 + FirstError(s[1..])
  }

  /**
   * StartAsync starts the services in order and stops at the first failure, returning its
   * error wrapped with the service's position; later services are never started.
   */
  lemma StartAllCorrect(answer: Oracle, svcs: seq<Handle>, calls: seq<Call>)
    ensures var a := StartAnswers(answer, svcs, calls);
      var k := FirstError(a);
      StartFrom(answer, svcs, 0, calls) ==
        if k == |svcs| then (calls + Starts(svcs), None)
        else (calls + Starts(svcs[..k + 1]), Some(IndexWrapped(k, a[k].value)))
  {
    assert svcs[..0] == [];
    assert calls + Starts([]) == calls;
    StartFromCorrect(answer, svcs, calls, 0);
  }

  lemma {:induction false} StartFromCorrect(answer: Oracle, svcs: seq<Handle>, calls: seq<Call>, i: nat)
    requires i <= |svcs|
    requires forall j :: 0 <= j < i ==> StartAnswers(answer, svcs, calls)[j].None?
    ensures var a := StartAnswers(answer, svcs, calls);
      var k := FirstError(a);
      StartFrom(answer, svcs, i, calls + Starts(svcs[..i])) ==
        if k == |svcs| then (calls + Starts(svcs), None)
        else (calls + Starts(svcs[..k + 1]), Some(IndexWrapped(k, a[k].value)))
    decreases |svcs| - i
  {
    var a := StartAnswers(answer, svcs, calls);
    var k := FirstError(a);
    FirstErrorAt(a, i);
    if i == |svcs| {
      assert svcs[..i] == svcs;
    } else {
      assert Starts(svcs[..i]) + [StartCall(svcs[i])] == Starts(svcs[..i + 1]);
      assert calls + Starts(svcs[..i]) + [StartCall(svcs[i])] == calls + Starts(svcs[..i + 1]);
      if a[i].None? {
        StartFromCorrect(answer, svcs, calls, i + 1);
      }
    }
  }

  /** Before the first error, the first error is further on. */
  lemma FirstErrorAt(s: seq<Option<Error>>, i: nat)
    requires i <= |s| && forall j :: 0 <= j < i ==> s[j].None?
    ensures i <= FirstError(s)
    ensures i < |s| && s[i].Some? ==> FirstError(s) == i
  {
  }

  /**
   * StopAsync stops every service, last registered first, whatever they answer, and returns
   * the first error met in that order.
   */
  lemma StopAllCorrect(answer: Oracle, svcs: seq<Handle>, calls: seq<Call>)
    ensures var a := StopAnswers(answer, svcs, calls);
      var k := FirstError(a);
      StopFrom(answer, svcs, |svcs|, None, calls) ==
        (calls + StopsReversed(svcs), if k == |svcs| then None else a[k])
  {
    var stops := StopsReversed(svcs);
    assert stops[..0] == [];
    assert calls + stops[..0] == calls;
    var a := StopAnswers(answer, svcs, calls);
    assert a[..0] == [];
    StopFromCorrect(answer, svcs, calls, |svcs|, None);
  }

  lemma {:induction false} StopFromCorrect(answer: Oracle, svcs: seq<Handle>, calls: seq<Call>, i: nat, first: Option<Error>)
    requires i <= |svcs|
    requires var a := StopAnswers(answer, svcs, calls);
      var m := |svcs| - i;
      first == (if FirstError(a[..m]) == m then None else a[FirstError(a[..m])])
    ensures var a := StopAnswers(answer, svcs, calls);
      var k := FirstError(a);
      var stops := StopsReversed(svcs);
      StopFrom(answer, svcs, i, first, calls + stops[..|svcs| - i]) ==
        (calls + stops, if k == |svcs| then None else a[k])
    decreases i
  {
    var a := StopAnswers(answer, svcs, calls);
    var stops := StopsReversed(svcs);
    var m := |svcs| - i;
    if i == 0 {
      assert stops[..m] == stops;
      assert a[..m] == a;
    } else {
      assert stops[m] == StopCall(svcs[i - 1]);
      assert stops[..m] + [stops[m]] == stops[..m + 1];
      assert calls + stops[..m] + [stops[m]] == calls + stops[..m + 1];
      var e := answer(stops[m], calls + stops[..m]);
      assert e == a[m];
      var first' := if first.None? && e.Some? then e else first;
      FirstErrorPrefix(a, m);
      StopFromCorrect(answer, svcs, calls, i - 1, first');
    }
  }

  /** The first error of a one-longer prefix. */
  lemma {:induction false} FirstErrorPrefix(s: seq<Option<Error>>, m: nat)
    requires m < |s|
    ensures var k := FirstError(s[..m]);
      var k' := FirstError(s[..m + 1]);
      (if k' == m + 1 then None else s[k']) ==
        (if k == m then (if s[m].Some? then s[m] else None) else s[k])
  {
    var k := FirstError(s[..m]);
    var k' := FirstError(s[..m + 1]);
    FirstErrorAt(s[..m + 1], k);
    if k < m {
      assert s[..m][k] == s[..m + 1][k];
    }
  }
}
