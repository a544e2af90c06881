/** The memory channel over time: the caller's calls arrive one after another
    and each is answered before the next is taken. Each call carries what the
    platform reported while it was handled. Because the service keeps no state,
    an answer depends on its own call only: an optimisation request never
    changes a later answer. */
module ChannelSession {
  import opened Attempts
  import opened MemoryChannel

  /** One incoming call: its method name, how reading the SDK level completed
      and how the collection requests would complete while it is handled. */
  datatype Call = Call(name: string, sdkRead: Attempt<int>, gc: GcRun)

  /** The answer the handler gives one call. */
  function Answer(call: Call): Response {
    HandleCall(call.name, call.sdkRead, call.gc)
  }

  /** The answers to a series of calls, in order: exactly one per call. */
  function Serve(calls: seq<Call>): (responses: seq<Response>)
    ensures |responses| == |calls|
  {
    if calls == [] then [] else [Answer(calls[0])] + Serve(calls[1..])
  }

  /** The answer at position `i` is the answer its call gets on its own. */
  lemma {:induction false} ServeAt(calls: seq<Call>, i: nat)
    requires i < |calls|
    ensures Serve(calls)[i] == Answer(calls[i])
  {
    if i > 0 {
      ServeAt(calls[1..], i - 1);
    }
  }

  /** Serving two series back to back answers each as if served alone. */
  lemma {:induction false} ServeConcat(first: seq<Call>, second: seq<Call>)
    ensures Serve(first + second) == Serve(first) + Serve(second)
  {
    if first == [] {
      assert first + second == second;
    } else {
      assert (first + second)[1..] == first[1..] + second;
      ServeConcat(first[1..], second);
    }
  }

  /** An "optimizeMemory" call placed anywhere in a series answers `true` and
      leaves every other answer, before and after it, as it was. */
  lemma OptimizeLeavesOtherAnswers(before: seq<Call>, sdkRead: Attempt<int>, gc: GcRun, after: seq<Call>)
    ensures Serve(before + [Call(OptimizeMemoryMethod, sdkRead, gc)] + after)
         == Serve(before) + [Success(BoolValue(true))] + Serve(after)
  {
    var opt := Call(OptimizeMemoryMethod, sdkRead, gc);
    ServeConcat(before + [opt], after);
    ServeConcat(before, [opt]);
    OptimizeMemoryAlwaysTrue(sdkRead, gc);
    assert Serve([opt]) == [Answer(opt)] + Serve([]);
  }

  /** How the collection requests complete never changes any answer: two
      series that differ only in those outcomes are answered alike. */
  lemma GcOutcomesNeverChangeAnswers(calls: seq<Call>, others: seq<Call>)
    requires |others| == |calls|
    requires forall i :: 0 <= i < |calls| ==>
      others[i].name == calls[i].name && others[i].sdkRead == calls[i].sdkRead
    ensures Serve(others) == Serve(calls)
  {
    forall i | 0 <= i < |calls|
      ensures Serve(others)[i] == Serve(calls)[i]
    {
      ServeAt(calls, i);
      ServeAt(others, i);
    }
  }

  /** On a platform that reports the same thing to every call, all
      "getPageSize" answers in a series agree, and every
      "is16KBPageSizeSupported" answer is `true` exactly when they are 16384. */
  lemma StablePlatformConsistentAnswers(calls: seq<Call>, sdkRead: Attempt<int>, i: nat, j: nat)
    requires forall k :: 0 <= k < |calls| ==> calls[k].sdkRead == sdkRead
    requires i < |calls| && j < |calls|
    requires calls[i].name == GetPageSizeMethod
    ensures Serve(calls)[i] == Success(IntValue(GetSystemPageSize(sdkRead)))
    ensures calls[j].name == GetPageSizeMethod ==> Serve(calls)[j] == Serve(calls)[i]
    ensures calls[j].name == Is16KBMethod ==>
      Serve(calls)[j] == Success(BoolValue(Serve(calls)[i].value.i == LargePage))
  {
    ServeAt(calls, i);
    ServeAt(calls, j);
    QueriesAnswerDetection(sdkRead, calls[i].gc);
    QueriesAnswerDetection(sdkRead, calls[j].gc);
  }
}
