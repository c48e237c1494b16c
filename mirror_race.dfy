/**
 * `promiseAny` and `fetchAcrossMirrorsFast` (services/radioService.ts): the
 * same request is sent to every mirror and the first mirror to answer with a
 * usable body wins. The network is an input: the settlements of the
 * requests in the order their handlers run, one per request.
 */
module MirrorRace {
  import opened Wrappers
  import opened RadioTypes

  /** A settled promise: fulfilled with a value, or rejected. */
  datatype Outcome<T> = Fulfilled(value: T) | Rejected

  /** `promiseAny`'s two rejection reasons. */
  datatype AnyError = NoPromisesProvided | AllMirrorsFailed

  /** `fetchAcrossMirrorsFast`'s only error, "Station source unavailable". */
  datatype FetchError = SourceUnavailable

  /** One mirror request and how it settled (a timeout, a network error, a bad status or body is `Rejected`). */
  datatype Settlement = Settlement(url: string, outcome: Outcome<Json>)

  /** The first fulfilled value among `outcomes`, if any. */
  function FirstFulfilled<T>(outcomes: seq<Outcome<T>>): Option<T> {
    if outcomes == [] then None
    else
      var earlier := FirstFulfilled(outcomes[..|outcomes| - 1]);
      var last := outcomes[|outcomes| - 1];
      if earlier.Some? then earlier else if last.Fulfilled? then Some(last.value) else None
  }

  /** The number of rejections among `outcomes`. */
  function Rejections<T>(outcomes: seq<Outcome<T>>): nat {
    if outcomes == [] then 0
    else Rejections(outcomes[..|outcomes| - 1]) + (if outcomes[|outcomes| - 1].Rejected? then 1 else 0)
  }

  /** How the promise `promiseAny` returns settles, for inputs settling in the order of `outcomes`. */
  function AnySettlement<T>(outcomes: seq<Outcome<T>>): Result<T, AnyError> {
    if outcomes == [] then Failure(NoPromisesProvided)
    else if FirstFulfilled(outcomes).Some? then Success(FirstFulfilled(outcomes).value)
    else Failure(AllMirrorsFailed)
  }

  /** Without a fulfilment every input was rejected. */
  lemma {:induction false} NoneFulfilledAllRejected<T>(outcomes: seq<Outcome<T>>)
    ensures FirstFulfilled(outcomes).None? ==> Rejections(outcomes) == |outcomes|
  {
    if outcomes != [] {
      NoneFulfilledAllRejected(outcomes[..|outcomes| - 1]);
    }
  }

  /**
   * `promiseAny(promises)` with the handlers running in the order of
   * `outcomes`: the first fulfilment resolves it, and it rejects when the
   * rejection count reaches the number of inputs, or at once when there are none.
   */
  method PromiseAny<T>(outcomes: seq<Outcome<T>>) returns (r: Result<T, AnyError>)
    ensures r == AnySettlement(outcomes)
  {
    var rejectedCount := 0;
    if |outcomes| == 0 {
      return Failure(NoPromisesProvided);
    }
    var settled: Option<Result<T, AnyError>> := None;
    for i := 0 to |outcomes|
      invariant rejectedCount == Rejections(outcomes[..i]) <= i
      invariant FirstFulfilled(outcomes[..i]).Some? ==> settled == Some(Success(FirstFulfilled(outcomes[..i]).value))
      invariant FirstFulfilled(outcomes[..i]).None? && rejectedCount < |outcomes| ==> settled == None
      invariant FirstFulfilled(outcomes[..i]).None? && rejectedCount == |outcomes| ==> settled == Some(Failure(AllMirrorsFailed))
    {
      assert outcomes[..i + 1][..i] == outcomes[..i];
      match outcomes[i]
      case Fulfilled(v) =>
        if settled == None {
          settled := Some(Success(v));
        }
      case Rejected =>
        rejectedCount := rejectedCount + 1;
        if rejectedCount == |outcomes| && settled == None {
          settled := Some(Failure(AllMirrorsFailed));
        }
    }
    assert outcomes[..|outcomes|] == outcomes;
    NoneFulfilledAllRejected(outcomes);
    r := settled.value;
  }

  /** `promiseAny` resolves exactly when some input fulfils. */
  lemma {:induction false} AnyResolvesIffSomeFulfilled<T>(outcomes: seq<Outcome<T>>)
    ensures AnySettlement(outcomes).Success? <==> exists i :: 0 <= i < |outcomes| && outcomes[i].Fulfilled?
  {
    if outcomes != [] {
      var last := |outcomes| - 1;
      var init := outcomes[..last];
      AnyResolvesIffSomeFulfilled(init);
      if exists i :: 0 <= i < |outcomes| && outcomes[i].Fulfilled? {
        var i :| 0 <= i < |outcomes| && outcomes[i].Fulfilled?;
        if i < |init| {
          assert init[i].Fulfilled?;
        }
      }
      if FirstFulfilled(init).Some? {
        var i :| 0 <= i < |init| && init[i].Fulfilled?;
        assert outcomes[i].Fulfilled?;
      } else if outcomes[last].Fulfilled? {
        assert outcomes[last].Fulfilled?;
      }
    }
  }

  /** When `promiseAny` resolves, it is with the first fulfilled input: every earlier input was rejected. */
  lemma {:induction false} AnyResolvesWithFirst<T>(outcomes: seq<Outcome<T>>) returns (j: nat)
    requires AnySettlement(outcomes).Success?
    ensures j < |outcomes| && outcomes[j] == Fulfilled(AnySettlement(outcomes).value)
    ensures forall i :: 0 <= i < j ==> outcomes[i].Rejected?
  {
    var init := outcomes[..|outcomes| - 1];
    if FirstFulfilled(init).Some? {
      j := AnyResolvesWithFirst(init);
      assert outcomes[j] == init[j];
      assert forall i :: 0 <= i < j ==> outcomes[i] == init[i];
    } else {
      j := |outcomes| - 1;
      NoneFulfilledAllRejected(init);
      forall i | 0 <= i < j ensures outcomes[i].Rejected? {
        assert outcomes[i] == init[i];
        if init[i].Fulfilled? {
          AnyResolvesIffSomeFulfilled(init);
        }
      }
    }
  }

  /** `promiseAny` rejects with "All mirrors failed" exactly when there are inputs and all of them rejected. */
  lemma AnyRejectsIffAllRejected<T>(outcomes: seq<Outcome<T>>)
    ensures AnySettlement(outcomes) == Failure(AllMirrorsFailed) <==>
      (|outcomes| > 0 && forall i :: 0 <= i < |outcomes| ==> outcomes[i].Rejected?)
    ensures AnySettlement(outcomes) == Failure(NoPromisesProvided) <==> |outcomes| == 0
  {
    AnyResolvesIffSomeFulfilled(outcomes);
  }

  /** `` urlParams ? `?${urlParams}` : '' ``. */
  function QueryString(urlParams: string): string {
    if urlParams == "" then "" else "?" + urlParams
  }

  /** `` `${baseUrl}/${path}${query}` ``. */
  function RequestUrl(baseUrl: string, path: string, urlParams: string): string {
    baseUrl + "/" + path + QueryString(urlParams)
  }

  /** The requests `fetchAcrossMirrorsFast` sends: one per mirror, in mirror order. */
  function MirrorRequests(mirrors: seq<string>, path: string, urlParams: string): (r: seq<string>)
    ensures |r| == |mirrors|
  {
    seq(|mirrors|, i requires 0 <= i < |mirrors| => RequestUrl(mirrors[i], path, urlParams))
  }

  /**
   * Each mirror receives `<base>/<path>`, followed by `?<params>` exactly
   * when there are parameters.
   */
  lemma MirrorRequestShape(mirrors: seq<string>, path: string, urlParams: string, i: int)
    requires 0 <= i < |mirrors|
    ensures var url := MirrorRequests(mirrors, path, urlParams)[i];
      var stem := mirrors[i] + "/" + path;
      |stem| <= |url| && url[..|stem|] == stem &&
      (urlParams == "" ==> url == stem) &&
      (urlParams != "" ==> url[|stem|..] == "?" + urlParams)
  {
    var stem := mirrors[i] + "/" + path;
    var url := stem + QueryString(urlParams);
    assert url[..|stem|] == stem;
    assert url[|stem|..] == QueryString(urlParams);
  }

  function SettledUrls(settlements: seq<Settlement>): (r: seq<string>)
    ensures |r| == |settlements|
  {
    seq(|settlements|, i requires 0 <= i < |settlements| => settlements[i].url)
  }

  function SettledOutcomes(settlements: seq<Settlement>): (r: seq<Outcome<Json>>)
    ensures |r| == |settlements|
  {
    seq(|settlements|, i requires 0 <= i < |settlements| => settlements[i].outcome)
  }

  /** Every request settles exactly once, in some order. */
  predicate SettlesEachOnce(requests: seq<string>, settlements: seq<Settlement>) {
    multiset(SettledUrls(settlements)) == multiset(requests)
  }

  /** The result of `fetchAcrossMirrorsFast` for the given settlements. */
  function MirrorResult(settlements: seq<Settlement>): Result<Json, FetchError> {
    match AnySettlement(SettledOutcomes(settlements))
    case Success(body) => Success(body)
    case Failure(_) => Failure(SourceUnavailable)
  }

  /** `fetchAcrossMirrorsFast(path, urlParams)` against `mirrors`, whose requests settle as `settlements`. */
  method FetchAcrossMirrorsFast(mirrors: seq<string>, path: string, urlParams: string, settlements: seq<Settlement>)
    returns (r: Result<Json, FetchError>)
    requires SettlesEachOnce(MirrorRequests(mirrors, path, urlParams), settlements)
    ensures r == MirrorResult(settlements)
  {
    var any := PromiseAny(SettledOutcomes(settlements));
    match any
    case Success(body) => r := Success(body);
    case Failure(_) => r := Failure(SourceUnavailable);
  }

  /**
   * The race succeeds exactly when some mirror answered, with the body of
   * the first one to do so; with no mirrors configured it always fails.
   */
  lemma MirrorResultFirstAnswer(mirrors: seq<string>, path: string, urlParams: string, settlements: seq<Settlement>)
    requires SettlesEachOnce(MirrorRequests(mirrors, path, urlParams), settlements)
    ensures |mirrors| == 0 ==> MirrorResult(settlements) == Failure(SourceUnavailable)
    ensures MirrorResult(settlements).Success? <==>
      exists i :: 0 <= i < |settlements| && settlements[i].outcome.Fulfilled?
    ensures MirrorResult(settlements).Success? ==>
      exists j :: 0 <= j < |settlements| && settlements[j].outcome == Fulfilled(MirrorResult(settlements).value) &&
        forall i :: 0 <= i < j ==> settlements[i].outcome.Rejected?
  {
    var outcomes := SettledOutcomes(settlements);
    if |mirrors| == 0 {
      assert |multiset(SettledUrls(settlements))| == 0;
    }
    AnyResolvesIffSomeFulfilled(outcomes);
    if MirrorResult(settlements).Success? {
      var j := AnyResolvesWithFirst(outcomes);
      assert settlements[j].outcome == outcomes[j];
      assert forall i :: 0 <= i < j ==> settlements[i].outcome == outcomes[i];
    }
    if exists i :: 0 <= i < |settlements| && settlements[i].outcome.Fulfilled? {
      var i :| 0 <= i < |settlements| && settlements[i].outcome.Fulfilled?;
      assert outcomes[i].Fulfilled?;
    }
  }
}
