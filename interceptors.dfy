/**
 * Callable and deferred-result interceptors: the insertion-ordered registry the
 * coordinator keeps them in, and what running the pre-process and post-process
 * hooks of a chain of them does.
 */
module Interceptors {
  import opened Wrappers
  import opened AsyncValues

  /** How a registered interceptor behaves: whether its preProcess or postProcess hook throws. */
  datatype Interceptor = Interceptor(preFault: Option<Exc>, postFault: Option<Exc>)

  datatype Registration = Registration(key: string, interceptor: Interceptor)

  /** One invocation of an interceptor hook, on the task `task`. */
  datatype HookCall<W> =
    | PreProcess(key: string, task: W)
    | PostProcess(key: string, task: W, result: Obj)

  datatype Phase = Pre | Post

  function FaultOf(r: Registration, p: Phase): Option<Exc> {
    if p == Pre then r.interceptor.preFault else r.interceptor.postFault
  }

  /** An insertion-ordered map from registration key to interceptor. */
  datatype Registry = Registry(keys: seq<string>, entries: map<string, Interceptor>) {
    ghost predicate Valid() {
      (forall i, j :: 0 <= i < j < |keys| ==> keys[i] != keys[j]) &&
      (forall k :: k in entries <==> k in keys)
    }

    /** The registered interceptors in registration order. */
    function Chain(): seq<Registration>
      requires Valid()
    {
      seq(|keys|, i requires 0 <= i < |keys| => Registration(keys[i], entries[keys[i]]))
    }
  }

  const EmptyRegistry := Registry([], map[])

  /**
   * Registering under a key: a new key goes last, a known key keeps its place
   * and gets the new interceptor.
   */
  function Put(r: Registry, key: string, i: Interceptor): (r': Registry)
    requires r.Valid()
    ensures r'.Valid()
    ensures r'.entries == r.entries[key := i]
    ensures |r'.keys| == |r.keys| + (if key in r.entries then 0 else 1)
    ensures r'.keys[..|r.keys|] == r.keys
  {
    if key in r.entries then Registry(r.keys, r.entries[key := i])
    else Registry(r.keys + [key], r.entries[key := i])
  }

  /** Registering keeps every other registration where and what it was, and the new one is in the chain. */
  lemma PutKeepsOtherRegistrations(r: Registry, key: string, i: Interceptor)
    requires r.Valid()
    ensures forall j :: 0 <= j < |r.keys| && r.keys[j] != key ==> Put(r, key, i).Chain()[j] == r.Chain()[j]
    ensures exists j :: 0 <= j < |Put(r, key, i).keys| && Put(r, key, i).Chain()[j] == Registration(key, i)
  {
    var r' := Put(r, key, i);
    if key in r.entries {
      var j :| 0 <= j < |r.keys| && r.keys[j] == key;
      assert r'.Chain()[j] == Registration(key, i);
    } else {
      assert r'.Chain()[|r.keys|] == Registration(key, i);
    }
  }

  /** Index of the first interceptor whose `p` hook throws, if any. */
  function FirstFault(chain: seq<Registration>, p: Phase): (r: Option<nat>)
    ensures r.Some? ==> r.value < |chain| && FaultOf(chain[r.value], p).Some?
    ensures r.Some? ==> forall j :: 0 <= j < r.value ==> FaultOf(chain[j], p).None?
    ensures r.None? <==> forall j :: 0 <= j < |chain| ==> FaultOf(chain[j], p).None?
  {
    if chain == [] then None
    else if FaultOf(chain[0], p).Some? then Some(0)
    else match FirstFault(chain[1..], p) {
      case None => None
      case Some(i) => Some(i + 1)
    }
  }

  /** The exception the `p` hooks of a chain raise: the first one thrown. */
  function Raised(chain: seq<Registration>, p: Phase): Option<Exc> {
    match FirstFault(chain, p)
    case None => None
    case Some(i) => FaultOf(chain[i], p)
  }

  /** How many `p` hooks run: all of them, or up to and including the first that throws. */
  function Invoked(chain: seq<Registration>, p: Phase): (n: nat)
    ensures n <= |chain|
  {
    match FirstFault(chain, p)
    case None => |chain|
    case Some(i) => i + 1
  }

  /** The pre-process hook calls a chain makes on `task`. */
  function PreCalls<W>(chain: seq<Registration>, task: W): seq<HookCall<W>> {
    seq(Invoked(chain, Pre), j requires 0 <= j < Invoked(chain, Pre) => PreProcess(chain[j].key, task))
  }

  /** The post-process hook calls a chain makes on `task` with the captured `result`. */
  function PostCalls<W>(chain: seq<Registration>, task: W, result: Obj): seq<HookCall<W>> {
    seq(Invoked(chain, Post), j requires 0 <= j < Invoked(chain, Post) => PostProcess(chain[j].key, task, result))
  }

  /** The result after post-processing: the first post-process exception replaces `result`. */
  function PostResult(chain: seq<Registration>, result: Obj): Obj {
    match Raised(chain, Post)
    case None => result
    case Some(e) => ExcObj(e)
  }

  /**
   * Runs every pre-process hook in registration order; the first one that
   * throws stops the chain and its exception is returned.
   */
  method ApplyPreProcess<W>(chain: seq<Registration>, task: W) returns (calls: seq<HookCall<W>>, fault: Option<Exc>)
    ensures calls == PreCalls(chain, task)
    ensures fault == Raised(chain, Pre)
  {
    calls, fault := [], None;
    var i := 0;
    while i < |chain| && fault.None?
      invariant 0 <= i <= |chain|
      invariant fault.None? ==> forall j :: 0 <= j < i ==> FaultOf(chain[j], Pre).None?
      invariant fault.Some? ==> 0 < i && fault == FaultOf(chain[i - 1], Pre)
      invariant fault.Some? ==> forall j :: 0 <= j < i - 1 ==> FaultOf(chain[j], Pre).None?
      invariant |calls| == i
      invariant forall j :: 0 <= j < i ==> calls[j] == PreProcess(chain[j].key, task)
    {
      calls := calls + [PreProcess(chain[i].key, task)];
      fault := chain[i].interceptor.preFault;
      i := i + 1;
    }
    if fault.Some? {
      assert FirstFault(chain, Pre) == Some(i - 1);
    }
  }

  /**
   * Runs every post-process hook in registration order with `result`; the
   * first one that throws stops the chain and its exception becomes the result.
   */
  method ApplyPostProcess<W>(chain: seq<Registration>, task: W, result: Obj) returns (calls: seq<HookCall<W>>, r: Obj)
    ensures calls == PostCalls(chain, task, result)
    ensures r == PostResult(chain, result)
  {
    calls, r := [], result;
    var i := 0;
    var failed := false;
    while i < |chain| && !failed
      invariant 0 <= i <= |chain|
      invariant !failed ==> r == result && forall j :: 0 <= j < i ==> FaultOf(chain[j], Post).None?
      invariant failed ==> 0 < i && r.ExcObj? && FaultOf(chain[i - 1], Post) == Some(r.e)
      invariant failed ==> forall j :: 0 <= j < i - 1 ==> FaultOf(chain[j], Post).None?
      invariant |calls| == i
      invariant forall j :: 0 <= j < i ==> calls[j] == PostProcess(chain[j].key, task, result)
    {
      calls := calls + [PostProcess(chain[i].key, task, result)];
      match chain[i].interceptor.postFault {
        case Some(e) =>
          r := ExcObj(e);
          failed := true;
        case None =>
      }
      i := i + 1;
    }
    if failed {
      assert FirstFault(chain, Post) == Some(i - 1);
    }
  }
}
