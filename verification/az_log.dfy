/** The process-wide logging filter and dispatch engine.

    The state is a classification filter (an optional, sentinel-terminated
    list) and an optional callback. Two setters replace them; one engine
    answers "would a message of this classification be logged?" and, when
    asked to, delivers it to the callback. Deliveries are recorded in a ghost
    trace instead of running the callback. */
module AzLog {
  import opened AzCore

  /** The classification tags. `EndOfList` terminates a filter list; `Other`
      stands for any other value a caller may have put into a list. Its
      `code` ranges over the values that are not the C value of a named tag
      or of the sentinel: those values are the constructors above. */
  datatype Classification =
    | HttpRequest
    | HttpResponse
    | HttpRetry
    | MqttReceivedTopic
    | MqttReceivedPayload
    | IotRetry
    | IotSasToken
    | IotAzureRtos
    | EndOfList
    | Other(code: int)
  {
    /** One of the eight named classifications a filter may hold. */
    predicate IsNamed() { !EndOfList? && !Other? }
  }

  /** Identity of a registered callback function. */
  type CallbackId = nat

  /** One invocation of a callback: which callback, and what it was given. */
  datatype Delivery = Delivery(callback: CallbackId, classification: Classification, message: Bytes)

  /** The entries of `s` that a walk from its start sees before the first
      `EndOfList` (all of `s` when it holds no sentinel). */
  function Prefix(s: seq<Classification>): (p: seq<Classification>)
    ensures |p| <= |s| && p == s[..|p|]
    ensures EndOfList !in p
    ensures |p| < |s| ==> s[|p|] == EndOfList
  {
    if s == [] || s[0] == EndOfList then []
    else [s[0]] + Prefix(s[1..])
  }

  /** A list is terminated when it holds a sentinel somewhere. */
  predicate Terminated(s: seq<Classification>) {
    EndOfList in s
  }

  /** What the checked-build validator accepts: no list at all, or a
      terminated list whose entries before the sentinel are all named. */
  predicate ValidClassifications(classifications: Option<seq<Classification>>) {
    classifications.None? ||
    (Terminated(classifications.value) &&
     forall c :: c in Prefix(classifications.value) ==> c.IsNamed())
  }

  /** The list the engine walks: the registered filter, or, when none is
      registered, the one-element list holding the message's own
      classification. */
  function EffectiveList(classifications: Option<seq<Classification>>, c: Classification): (l: seq<Classification>) {
    if classifications.None? then [c] else classifications.value
  }

  /** Whether the engine, in a state with these two fields, reports a message
      of classification `c` as loggable. */
  predicate Admits(classifications: Option<seq<Classification>>, callback: Option<CallbackId>, c: Classification) {
    callback.Some? && c in Prefix(EffectiveList(classifications, c))
  }

  /** When the walk stops at index `i` because it met the first sentinel
      there, it has seen exactly `s[..i]`. */
  lemma {:induction false} PrefixAtSentinel(s: seq<Classification>, i: nat)
    requires i < |s| && s[i] == EndOfList
    requires forall k :: 0 <= k < i ==> s[k] != EndOfList
    ensures Prefix(s) == s[..i]
  {
    if i > 0 {
      PrefixAtSentinel(s[1..], i - 1);
      assert s[1..][..i - 1] == s[1..i];
      assert s[..i] == [s[0]] + s[1..i];
    }
  }

  /** An entry that no sentinel precedes, and that is not one itself, is
      seen by the walk. */
  lemma {:induction false} PrefixCovers(s: seq<Classification>, i: nat)
    requires i < |s|
    requires forall k :: 0 <= k <= i ==> s[k] != EndOfList
    ensures i < |Prefix(s)| && Prefix(s)[i] == s[i]
  {
    if i > 0 {
      PrefixCovers(s[1..], i - 1);
    }
  }

  /** A list without any sentinel is walked to its end. */
  lemma {:induction false} PrefixWithoutSentinel(s: seq<Classification>)
    requires EndOfList !in s
    ensures Prefix(s) == s
  {
    if s != [] {
      assert EndOfList !in s[1..] by {
        forall k | 0 <= k < |s| - 1 ensures s[1..][k] != EndOfList {
          assert s[1..][k] == s[k + 1];
        }
      }
      PrefixWithoutSentinel(s[1..]);
      assert s == [s[0]] + s[1..];
    }
  }

  /** Entries after the first sentinel are never consulted. */
  lemma SentinelCutsOff(p: seq<Classification>, rest: seq<Classification>)
    requires EndOfList !in p
    ensures Prefix(p + [EndOfList] + rest) == p
  {
    var s := p + [EndOfList] + rest;
    assert s[|p|] == EndOfList;
    forall k | 0 <= k < |p| ensures s[k] != EndOfList {
      assert s[k] == p[k];
    }
    PrefixAtSentinel(s, |p|);
    assert s[..|p|] == p;
  }

  /** Therefore two filters that agree up to their first sentinel are
      indistinguishable to the engine, whatever follows it. */
  lemma AdmitsIgnoresTail(p: seq<Classification>, rest1: seq<Classification>, rest2: seq<Classification>,
                          callback: Option<CallbackId>, c: Classification)
    requires EndOfList !in p
    ensures Admits(Some(p + [EndOfList] + rest1), callback, c) == Admits(Some(p + [EndOfList] + rest2), callback, c)
  {
    SentinelCutsOff(p, rest1);
    SentinelCutsOff(p, rest2);
  }

  /** With no callback registered nothing is ever admitted, whatever the filter. */
  lemma NoCallbackAdmitsNothing(classifications: Option<seq<Classification>>, c: Classification)
    ensures !Admits(classifications, None, c)
  {
  }

  /** With a callback and no filter every classification is admitted except
      the sentinel itself, whose one-element list ends before it starts. */
  lemma UnfilteredAdmitsAllButSentinel(callback: CallbackId, c: Classification)
    ensures Admits(None, Some(callback), c) <==> c != EndOfList
  {
    if c != EndOfList {
      PrefixWithoutSentinel([c]);
    }
  }

  /** With both registered, a classification is admitted exactly when it is
      not the sentinel and occurs in the filter at some index that no
      sentinel precedes. */
  lemma FilteredAdmitsIff(s: seq<Classification>, callback: CallbackId, c: Classification)
    ensures Admits(Some(s), Some(callback), c) <==>
            (c != EndOfList && exists i :: 0 <= i < |s| && s[i] == c && EndOfList !in s[..i])
  {
    var p := Prefix(s);
    if Admits(Some(s), Some(callback), c) {
      var i :| 0 <= i < |p| && p[i] == c;
      assert s[i] == c;
      assert s[..i] == p[..i];
    }
    if c != EndOfList && exists i :: 0 <= i < |s| && s[i] == c && EndOfList !in s[..i] {
      var i :| 0 <= i < |s| && s[i] == c && EndOfList !in s[..i];
      forall k | 0 <= k < i ensures s[k] != EndOfList {
        assert s[..i][k] == s[k];
      }
      PrefixCovers(s, i);
    }
  }

  /** A non-NULL list is valid exactly when it has a sentinel at some index
      and every entry before that index is named (that sentinel is then the
      first one, since named entries are not sentinels). */
  lemma ValidClassificationsIff(s: seq<Classification>)
    ensures ValidClassifications(Some(s)) <==>
            exists i :: 0 <= i < |s| && s[i] == EndOfList && forall k :: 0 <= k < i ==> s[k].IsNamed()
  {
    var p := Prefix(s);
    if ValidClassifications(Some(s)) {
      assert |p| < |s|;
      forall k | 0 <= k < |p| ensures s[k].IsNamed() {
        assert p[k] == s[k] && p[k] in p;
      }
    }
    if exists i :: 0 <= i < |s| && s[i] == EndOfList && forall k :: 0 <= k < i ==> s[k].IsNamed() {
      var i :| 0 <= i < |s| && s[i] == EndOfList && forall k :: 0 <= k < i ==> s[k].IsNamed();
      PrefixAtSentinel(s, i);
    }
  }

  /** `_az_log_classifications_are_valid`: a NULL list is valid; otherwise
      the entries are walked up to the sentinel and any entry that is not one
      of the eight named classifications makes the list invalid. Running off
      the end of a list that holds no sentinel also makes it invalid. */
  method ClassificationsAreValid(classifications: Option<seq<Classification>>) returns (ok: bool)
    ensures ok <==> ValidClassifications(classifications)
  {
    if classifications.None? {
      return true;
    }
    var s := classifications.value;
    var i := 0;
    while i < |s| && s[i] != EndOfList
      invariant 0 <= i <= |s|
      invariant forall k :: 0 <= k < i ==> s[k] != EndOfList && s[k].IsNamed()
    {
      if !s[i].IsNamed() {
        PrefixCovers(s, i);
        return false;
      }
      i := i + 1;
    }
    if i < |s| {
      PrefixAtSentinel(s, i);
      return true;
    }
    assert EndOfList !in s;
    return false;
  }

  /** The process-wide logging state. */
  class LogState {
    /** `_az_log_classifications`: NULL or the filter list, held as the
        contents it had when it was set. */
    var classifications: Option<seq<Classification>>
    /** `_az_log_message_callback`: NULL or the registered callback. */
    var callback: Option<CallbackId>
    /** Every callback invocation so far, oldest first. */
    ghost var trace: seq<Delivery>

    /** The checked-build invariant: only valid lists are ever registered. */
    ghost predicate Valid()
      reads this
    {
      ValidClassifications(classifications)
    }

    /** Process start: both globals are NULL and nothing was delivered. */
    constructor ()
      ensures Valid()
      ensures classifications == None && callback == None && trace == []
    {
      classifications := None;
      callback := None;
      trace := [];
    }

    /** `az_log_set_classifications`: replaces the filter; the callback and
        the deliveries so far are untouched. */
    method SetClassifications(newClassifications: Option<seq<Classification>>)
      requires ValidClassifications(newClassifications)
      modifies this`classifications
      ensures Valid()
      ensures classifications == newClassifications
      ensures callback == old(callback) && trace == old(trace)
    {
      classifications := newClassifications;
    }

    /** `az_log_set_callback`: replaces the callback (the last write wins);
        the filter and the deliveries so far are untouched. */
    method SetCallback(newCallback: Option<CallbackId>)
      requires Valid()
      modifies this`callback
      ensures Valid()
      ensures callback == newCallback
      ensures classifications == old(classifications) && trace == old(trace)
    {
      callback := newCallback;
    }

    /** `_az_log_write_engine`: reads each field once, gives up when no
        callback is registered, otherwise walks the effective list up to its
        sentinel and stops at the first entry equal to `classification`,
        delivering the message there when `logIt` holds. The result is
        `Admits` of the state on entry; at most one delivery is recorded,
        however often the classification repeats in the filter. */
    method WriteEngine(logIt: bool, classification: Classification, message: Bytes) returns (logged: bool)
      requires Valid()
      modifies this`trace
      ensures Valid()
      ensures classifications == old(classifications) && callback == old(callback)
      ensures logged == Admits(classifications, callback, classification)
      ensures trace == if logged && logIt
                       then old(trace) + [Delivery(callback.value, classification, message)]
                       else old(trace)
    {
      var cb := callback;
      var list := classifications;
      if cb.None? {
        return false;
      }
      var cls := EffectiveList(list, classification);
      var i := 0;
      while i < |cls| && cls[i] != EndOfList
        invariant 0 <= i <= |cls|
        invariant forall k :: 0 <= k < i ==> cls[k] != EndOfList && cls[k] != classification
        invariant trace == old(trace)
      {
        if cls[i] == classification {
          PrefixCovers(cls, i);
          if logIt {
            trace := trace + [Delivery(cb.value, classification, message)];
          }
          return true;
        }
        i := i + 1;
      }
      if i < |cls| {
        PrefixAtSentinel(cls, i);
      } else {
        PrefixWithoutSentinel(cls);
      }
      assert Prefix(cls) == cls[..i];
      return false;
    }

    /** `_az_log_should_write`: the engine without delivery. Nothing is
        delivered; the answer is what `Write` would deliver in this state. */
    method ShouldWrite(classification: Classification) returns (r: bool)
      requires Valid()
      modifies this`trace
      ensures Valid()
      ensures classifications == old(classifications) && callback == old(callback)
      ensures trace == old(trace)
      ensures r == Admits(classifications, callback, classification)
    {
      r := WriteEngine(false, classification, []);
    }

    /** `_az_log_write`: the engine with delivery; exactly one delivery is
        recorded when the state admits the classification, none otherwise. */
    method Write(classification: Classification, message: Bytes)
      requires Valid()
      modifies this`trace
      ensures Valid()
      ensures classifications == old(classifications) && callback == old(callback)
      ensures Admits(classifications, callback, classification) ==>
                trace == old(trace) + [Delivery(callback.value, classification, message)]
      ensures !Admits(classifications, callback, classification) ==> trace == old(trace)
    {
      var _ := WriteEngine(true, classification, message);
    }
  }
}
