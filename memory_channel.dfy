/** The host side of the application's memory channel: the page-size policy,
    the 16KB capability derived from it, the advisory memory optimisation and
    the dispatch of a request by its method name.

    Every operation is a pure function of what the platform reported during
    the request (the SDK level read, or the exception it threw; how the
    garbage-collection calls completed); nothing is kept between requests. */
module MemoryChannel {
  import opened Attempts

  /** The page size assumed on older platforms, and the fallback. */
  const SmallPage: int := 4096
  /** The page size assumed from Android 15 on. */
  const LargePage: int := 16384
  /** The first SDK level (API 35, Android 15) assumed to use 16KB pages. */
  const LargePageMinSdk: int := 35

  /** The closed set of page sizes the service can report. */
  predicate IsReportedPageSize(p: int) {
    p == SmallPage || p == LargePage
  }

  // ---------------------------------------------------------------------
  // Page-size policy
  // ---------------------------------------------------------------------

  /** The versioned policy: the page size assumed for a platform at SDK
      level `sdk`. */
  function PageSizeForSdk(sdk: int): (p: int)
    ensures IsReportedPageSize(p)
  {
    if sdk >= LargePageMinSdk then LargePage else SmallPage
  }

  /** The page size the service reports, given how reading the SDK level
      completed. A read that throws is caught and answered with the small
      page size, so the detection never fails towards its caller. */
  function GetSystemPageSize(sdkRead: Attempt<int>): (pageSize: int)
    ensures IsReportedPageSize(pageSize)
    ensures sdkRead.Threw? ==> pageSize == SmallPage
  {
    sdkRead.Then(sdk => Returned(PageSizeForSdk(sdk))).Recover(SmallPage)
  }

  /** Whether the device is classified as using 16KB pages; it goes through
      the same detection as `GetSystemPageSize`, so it agrees with the page
      size reported for the same read, a failed read included. */
  function Is16KBPageSizeSupported(sdkRead: Attempt<int>): (supported: bool)
    ensures supported <==> GetSystemPageSize(sdkRead) == LargePage
    ensures !supported <==> GetSystemPageSize(sdkRead) == SmallPage
    ensures supported <==> sdkRead.Returned? && sdkRead.value >= LargePageMinSdk
  {
    GetSystemPageSize(sdkRead) >= LargePage
  }

  /** A successful read answers 16384 from SDK level 35 on and 4096 below it. */
  lemma PageSizeThreshold(sdk: int)
    ensures sdk >= LargePageMinSdk ==> GetSystemPageSize(Returned(sdk)) == LargePage
    ensures sdk < LargePageMinSdk ==> GetSystemPageSize(Returned(sdk)) == SmallPage
  {
  }

  /** A failed read answers 4096, the smallest page size the service can
      report: the fallback is never larger than any detected answer. */
  lemma DetectionFailureFallsBackToSmallest(sdkRead: Attempt<int>)
    ensures GetSystemPageSize(Threw) == SmallPage
    ensures GetSystemPageSize(Threw) <= GetSystemPageSize(sdkRead)
  {
  }

  /** A newer platform never reports a smaller page size than an older one. */
  lemma PageSizeMonotone(sdk1: int, sdk2: int)
    requires sdk1 <= sdk2
    ensures GetSystemPageSize(Returned(sdk1)) <= GetSystemPageSize(Returned(sdk2))
  {
  }

  // ---------------------------------------------------------------------
  // Advisory memory optimisation
  // ---------------------------------------------------------------------

  /** How the two garbage-collection requests (`System.gc()`, then
      `Runtime.getRuntime().gc()`) would complete if issued. */
  datatype GcRun = GcRun(systemGc: Attempt<()>, runtimeGc: Attempt<()>)

  /** The two collection requests. */
  datatype GcRequest = SystemGc | RuntimeGc

  /** What the optimisation did: how it completed, and which collection
      requests it issued, in order. */
  datatype GcEffect = GcEffect(completion: Attempt<()>, issued: seq<GcRequest>)

  /** Issues both collection requests in one `try` block and discards any
      `Exception`: the operation always completes normally. `System.gc()` is
      always issued; `Runtime.getRuntime().gc()` only when the first returned. */
  function OptimizeMemoryFor16KB(gc: GcRun): (effect: GcEffect)
    ensures effect.completion.Returned?
    ensures 1 <= |effect.issued| <= 2 && effect.issued[0] == SystemGc
    ensures RuntimeGc in effect.issued <==> gc.systemGc.Returned?
  {
    var issued := [SystemGc] + (if gc.systemGc.Returned? then [RuntimeGc] else []);
    GcEffect(Returned(gc.systemGc.Then(_ => gc.runtimeGc).Recover(())), issued)
  }

  // ---------------------------------------------------------------------
  // Request dispatch
  // ---------------------------------------------------------------------

  /** The method-name literals shared with the caller. */
  const GetPageSizeMethod: string := "getPageSize"
  const OptimizeMemoryMethod: string := "optimizeMemory"
  const Is16KBMethod: string := "is16KBPageSizeSupported"

  /** Every method name the service answers with success. */
  const KnownMethods: set<string> := {GetPageSizeMethod, OptimizeMemoryMethod, Is16KBMethod}

  /** A request, as the closed set of operations plus any other name. */
  datatype Request = GetPageSize | OptimizeMemory | Is16KB | Unknown(name: string)

  /** The value carried by a success answer: an integer or a boolean. */
  datatype Value = IntValue(i: int) | BoolValue(b: bool)

  /** The two answers the service gives. No error answer exists. */
  datatype Response = Success(value: Value) | NotImplemented

  /** The method name a request travels under. */
  function MethodName(req: Request): string {
    match req
    case GetPageSize => GetPageSizeMethod
    case OptimizeMemory => OptimizeMemoryMethod
    case Is16KB => Is16KBMethod
    case Unknown(m) => m
  }

  /** A request is well formed when an `Unknown` one does not carry a known
      name (such a request would be read as the known operation). */
  predicate WellFormed(req: Request) {
    req.Unknown? ==> req.name !in KnownMethods
  }

  /** Reads the method name of an incoming call. */
  function ParseRequest(name: string): (req: Request)
    ensures WellFormed(req)
    ensures MethodName(req) == name
    ensures req.Unknown? <==> name !in KnownMethods
  {
    if name == GetPageSizeMethod then GetPageSize
    else if name == OptimizeMemoryMethod then OptimizeMemory
    else if name == Is16KBMethod then Is16KB
    else Unknown(name)
  }

  /** Reading the name of a well-formed request gives the request back. */
  lemma ParseMethodNameRoundTrip(req: Request)
    requires WellFormed(req)
    ensures ParseRequest(MethodName(req)) == req
  {
  }

  /** Answers one request. The optimisation is issued and its completion
      awaited before `true` is sent back; it always completes normally. */
  function Handle(req: Request, sdkRead: Attempt<int>, gc: GcRun): (resp: Response)
    ensures resp.Success? <==> !req.Unknown?
  {
    match req
    case GetPageSize => Success(IntValue(GetSystemPageSize(sdkRead)))
    case OptimizeMemory =>
      (match OptimizeMemoryFor16KB(gc).completion
       case Returned(_) => Success(BoolValue(true)))
    case Is16KB => Success(BoolValue(Is16KBPageSizeSupported(sdkRead)))
    case Unknown(_) => NotImplemented
  }

  /** Answers an incoming call by its method name. */
  function HandleCall(name: string, sdkRead: Attempt<int>, gc: GcRun): (resp: Response)
    ensures resp.Success? <==> name in KnownMethods
  {
    Handle(ParseRequest(name), sdkRead, gc)
  }

  /** "getPageSize" answers the detected page size, and "is16KBPageSizeSupported"
      answers whether that same page size is 16384. */
  lemma QueriesAnswerDetection(sdkRead: Attempt<int>, gc: GcRun)
    ensures HandleCall(GetPageSizeMethod, sdkRead, gc) == Success(IntValue(GetSystemPageSize(sdkRead)))
    ensures HandleCall(Is16KBMethod, sdkRead, gc) == Success(BoolValue(Is16KBPageSizeSupported(sdkRead)))
    ensures HandleCall(Is16KBMethod, sdkRead, gc).value.b
        <==> HandleCall(GetPageSizeMethod, sdkRead, gc).value.i == LargePage
  {
  }

  /** "optimizeMemory" answers `true` however the collection requests complete,
      including when either of them throws. */
  lemma OptimizeMemoryAlwaysTrue(sdkRead: Attempt<int>, gc: GcRun)
    ensures HandleCall(OptimizeMemoryMethod, sdkRead, gc) == Success(BoolValue(true))
  {
  }

  /** Any other method name is answered "not implemented", whatever the
      platform reports. */
  lemma UnknownMethodNotImplemented(name: string, sdkRead: Attempt<int>, gc: GcRun)
    requires name !in KnownMethods
    ensures HandleCall(name, sdkRead, gc) == NotImplemented
  {
  }
}
