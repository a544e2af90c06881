# Memory channel of the Pelevo Android host

The Android host of the Pelevo podcast app answers three requests that the
Flutter front-end sends over the method channel `com.pelevo_podcast.app/memory`:

- `getPageSize`: the memory page size the device is assumed to use, 16384 from
  SDK level 35 (Android 15) on and 4096 below it; when reading the SDK level
  raises an `Exception`, it is caught and 4096 is answered.
- `is16KBPageSizeSupported`: whether that same detected page size is at least 16384.
- `optimizeMemory`: issues `System.gc()` and then `Runtime.getRuntime().gc()`
  inside one `try` block, discards any `Exception`, and answers `true`.
- any other method name: answered "not implemented".

The model is pure Dafny in three modules:

- `Attempts` (attempts.dfy): `Attempt<T>`, how a call into the platform
  completed (returned a value, or raised an `Exception`), with `Then` for the rest of a `try`
  block and `Recover` for the value of a `try`/`catch` expression.
- `MemoryChannel` (memory_channel.dfy): the page-size policy, the 16KB
  classification, the optimisation request, the request datatype, the parsing
  of method names and the dispatch. What the platform reports during a request
  (the SDK level read or its `Exception`; how each collection request completes)
  is a parameter of every operation.
- `ChannelSession` (channel_session.dfy): a series of calls answered one after
  another. The handler is a function of one call alone, so statelessness holds
  by construction; these lemmas lift the per-call facts to whole series (one
  answer per call, and an `optimizeMemory` call never changing another answer).

The optimisation is synchronous: both collection requests are issued inside
the `try` block, and `true` is answered only after that block completes.
`Handle` matches on the completion of `OptimizeMemoryFor16KB`, whose contract
guarantees it completes normally.

## Model

| member | source | states |
|---|---|---|
| `MemoryChannel.PageSizeForSdk` | android/app/src/main/kotlin/com/pelevo_podcast/app/MainActivity.kt:36 | the versioned policy only ever yields 4096 or 16384 |
| `MemoryChannel.GetSystemPageSize` | android/app/src/main/kotlin/com/pelevo_podcast/app/MainActivity.kt:32-41 | the reported page size is 4096 or 16384 on every path, and a read that raises an `Exception` yields 4096 instead of an error |
| `MemoryChannel.PageSizeThreshold` | android/app/src/main/kotlin/com/pelevo_podcast/app/MainActivity.kt:34-36 | a successful read at SDK level 35 or above yields 16384; below 35 it yields 4096 |
| `MemoryChannel.DetectionFailureFallsBackToSmallest` | android/app/src/main/kotlin/com/pelevo_podcast/app/MainActivity.kt:33-40 | a failed read yields 4096, which is no larger than the page size for any read |
| `MemoryChannel.PageSizeMonotone` | android/app/src/main/kotlin/com/pelevo_podcast/app/MainActivity.kt:36 | a higher SDK level never yields a smaller page size |
| `MemoryChannel.Is16KBPageSizeSupported` | android/app/src/main/kotlin/com/pelevo_podcast/app/MainActivity.kt:43-45 | the 16KB classification holds exactly when the detected page size is 16384, fails exactly when it is 4096, and holds exactly when the read succeeded with SDK level 35 or above — a failed read included |
| `MemoryChannel.OptimizeMemoryFor16KB` | android/app/src/main/kotlin/com/pelevo_podcast/app/MainActivity.kt:47-55 | the optimisation always completes normally, whichever collection request raises an `Exception`; `System.gc()` is always issued first, and `Runtime.getRuntime().gc()` is issued exactly when the first returned |
| `MemoryChannel.ParseRequest` | android/app/src/main/kotlin/com/pelevo_podcast/app/MainActivity.kt:14-27 | reading a method name gives a request carrying that same name, which is `Unknown` exactly when the name is not one of the three literals |
| `MemoryChannel.ParseMethodNameRoundTrip` | android/app/src/main/kotlin/com/pelevo_podcast/app/MainActivity.kt:14-27 | reading back the name of any well-formed request gives that request |
| `MemoryChannel.Handle` | android/app/src/main/kotlin/com/pelevo_podcast/app/MainActivity.kt:14-28 | every request gets exactly one answer: success for each of the three operations, "not implemented" exactly for any other |
| `MemoryChannel.HandleCall` | android/app/src/main/kotlin/com/pelevo_podcast/app/MainActivity.kt:13-29 | a call is answered with success exactly when its method name is one of the three literals, and "not implemented" otherwise |
| `MemoryChannel.QueriesAnswerDetection` | android/app/src/main/kotlin/com/pelevo_podcast/app/MainActivity.kt:15-24 | `getPageSize` answers the detected page size, `is16KBPageSizeSupported` answers the classification, and the latter is `true` exactly when the former is 16384 |
| `MemoryChannel.OptimizeMemoryAlwaysTrue` | android/app/src/main/kotlin/com/pelevo_podcast/app/MainActivity.kt:18-21 | `optimizeMemory` answers success with `true` for every outcome of the collection requests, an `Exception` from either included |
| `MemoryChannel.UnknownMethodNotImplemented` | android/app/src/main/kotlin/com/pelevo_podcast/app/MainActivity.kt:25-27 | any other method name is answered "not implemented", whatever the platform reports |
| `ChannelSession.Serve` | android/app/src/main/kotlin/com/pelevo_podcast/app/MainActivity.kt:13-29 | a series of calls gets exactly one answer per call (the series is a map of the per-call handler) |
| `ChannelSession.ServeAt` | android/app/src/main/kotlin/com/pelevo_podcast/app/MainActivity.kt:13-29 | the answer at each position of a series is the answer its call gets on its own; this holds by construction, since the handler is a function of one call |
| `ChannelSession.ServeConcat` | android/app/src/main/kotlin/com/pelevo_podcast/app/MainActivity.kt:13-29 | serving two series back to back answers each as if it were served alone |
| `ChannelSession.OptimizeLeavesOtherAnswers` | android/app/src/main/kotlin/com/pelevo_podcast/app/MainActivity.kt:18-21 | an `optimizeMemory` call inserted anywhere in a series answers `true` and changes no answer before or after it |
| `ChannelSession.GcOutcomesNeverChangeAnswers` | android/app/src/main/kotlin/com/pelevo_podcast/app/MainActivity.kt:47-55 | two series that differ only in how the collection requests complete get identical answers |
| `ChannelSession.StablePlatformConsistentAnswers` | android/app/src/main/kotlin/com/pelevo_podcast/app/MainActivity.kt:43-45 | on a platform reporting the same thing to every call, all `getPageSize` answers agree and each `is16KBPageSizeSupported` answer is `true` exactly when they are 16384 |

## Left out

- Flutter engine configuration, construction of the `MethodChannel` and its binary messenger (MainActivity.kt:10-13): transport plumbing; a call arrives in the model as a method name and its answer is a returned `Response` instead of a call on the result callback.
- The activity lifecycle (`FlutterActivity`, `super.configureFlutterEngine`): platform lifecycle code with no logic of the service.
- GetSystemPageSize: only an `Exception` from reading the SDK level is modelled; a `Throwable` that is not an `Exception` (an `Error` such as `NoClassDefFoundError`) escapes the `catch` at MainActivity.kt:38 and the call handler, and is not modelled.
- OptimizeMemoryFor16KB: only an `Exception` from the collection requests is modelled; a `Throwable` that is not an `Exception` (an `Error` such as `OutOfMemoryError`) escapes the `catch` at MainActivity.kt:52 and the call handler, and is not modelled.
- The channel name constant `CHANNEL` (MainActivity.kt:8): fixed configuration with no logic.
- The live read of `android.os.Build.VERSION.SDK_INT`: injected per request as an `Attempt<int>` (the level read, or the `Exception` it raised).
- What `System.gc()` and `Runtime.getRuntime().gc()` do to memory: foreign runtime calls with no observable contract; the model keeps only whether each returned or raised an `Exception`, and which of them were issued.
- Kotlin's 32-bit `Int` for the SDK level: the policy only compares the level with 35, so unbounded integers give the same answer for every 32-bit value.
- Requests arriving concurrently: the service holds no state, and each answer is a function of its own call only.
