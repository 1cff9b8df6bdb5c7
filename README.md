# wasp: the method-signature compiler, modelled in Dafny

wasp is a declarative REST client for Android. Each method of a client interface carries a verb
annotation such as `@GET("/users/{id}")`, annotated parameters (`@Path`, `@Query`, `@Header`,
`@Body`) and a final `CallBack<T>` parameter. `MethodInfo` compiles one such method, once, into a
request descriptor. Its `init` runs three phases in order:

1. `parseMethodAnnotations` reads the HTTP verb (from the `@RestMethod` meta-annotation of the
   annotation's type) and the relative URL (the annotation's `value()`). Every method annotation
   must be such a verb annotation, and the last one wins.
2. `parseResponseObjectType` requires a last parameter whose raw class is assignable to
   `CallBack`. It walks to the `CallBack` supertype and takes its first type argument, with a
   wildcard replaced by its first upper bound.
3. `parseParamAnnotations` records the last annotation of every parameter slot. It rejects a
   repeated `@Path` name, a repeated `@Query` name or a repeated `@Header` name. Each role keeps
   its own list of names for this call only.

`WaspError` is the immutable error value given to a failed request's callback.

Files and modules:

- `wrappers.dfy` (`Wrappers`): `Option` stands for a Java reference that may be null, and
  `Result` for a value or a thrown exception.
- `reflection.dfy` (`Reflection`): what reflection reports about a method, as plain datatypes.
  `JType` is a class (with whether `CallBack` is assignable from it), a parameterized type, a
  wildcard or another type. There are also method and parameter annotations, and `MethodSig`.
  `Failure` tags the three Java exceptions that compilation can throw.
- `descriptors.dfy` (`Descriptors`): each phase as a function (`ParseRoute`, `ResponseType`,
  `ParamRoles`), their composition `Compile`, and the lemmas about them.
- `info.dfy` (`Info`): the class `MethodInfo` with the source's four mutable fields. Its methods
  carry out the phases step by step with loops, and each is proved equal to its function in
  `Descriptors`. `getParameterUpperBound` rewrites a local array in place, as the source does.
- `errors.dfy` (`Errors`): `WaspError` as a datatype, since its fields are final, and its
  `toString` layout.
- `scenarios.dfy` (`Scenarios`): whole-method examples.
- `text.dfy` (`Text`): prefix and suffix tests on strings.

Where the intended design and the code differ, the model follows the code:

- A method with no annotations compiles, and its verb and URL stay null. Nothing requires a
  verb annotation.
- Several verb annotations are not an error; the last one wins.
- Any runtime-visible annotation without `@RestMethod` (for example a non-verb marker) makes
  `init` throw `NullPointerException("method annotation may not be null")`.
- Suppose the last parameter is neither a class nor a parameterized type over a class (for
  example a type variable). Then `lastArgClass` stays null, and `CallBack.class.isAssignableFrom(null)`
  throws a `NullPointerException` with no message. The model returns `NullPointer(None)` here,
  not the "Last param should be CallBack" error.
- A parameterized last parameter whose `CallBack` supertype is not parameterized (a raw
  `CallBack`) compiles with a null response type.

## Model

| member | source | states |
|---|---|---|
| `Descriptors.MethodError` | wasp/src/main/java/com/github/nr4bt/wasp/MethodInfo.java:156-162 | the exception is an IllegalArgumentException whose message starts with `<DeclaringClass>.<method>: ` and ends with the given message |
| `Descriptors.ReadRoute` | wasp/src/main/java/com/github/nr4bt/wasp/MethodInfo.java:47-69 | one method annotation yields a verb and URL exactly when it has a `@RestMethod` marker and a readable `value()` |
| `Descriptors.ParseRouteSpec` | wasp/src/main/java/com/github/nr4bt/wasp/MethodInfo.java:45-71 | phase 1 succeeds iff every method annotation is marked and readable; with none it records nothing, otherwise the verb and URL of the last annotation |
| `Descriptors.ParseRouteFirstFailure` | wasp/src/main/java/com/github/nr4bt/wasp/MethodInfo.java:58-67 | the first unreadable annotation decides the exception: NPE "method annotation may not be null" without a marker, otherwise `<Class>.<method>: Failed to extract String 'value' from @<SimpleName> annotation.` |
| `Descriptors.LastArgClass` | wasp/src/main/java/com/github/nr4bt/wasp/MethodInfo.java:78-88 | `lastArgClass` is non-null iff the last type is a class or a parameterized type over a class, and is then that class |
| `Descriptors.ResponseType` | wasp/src/main/java/com/github/nr4bt/wasp/MethodInfo.java:73-97 | no parameters fails "Callback should be added as param"; a null `lastArgClass` fails with a messageless NPE; a non-CallBack class fails "Last param should be CallBack"; on success the type is set iff the CallBack supertype is parameterized, and is then its first argument's upper bound |
| `Descriptors.ParamRoles` | wasp/src/main/java/com/github/nr4bt/wasp/MethodInfo.java:99-143 | phase 3 succeeds iff no two Path, no two Query and no two Header annotations share a name; it then yields one entry per slot, the slot's last annotation of any kind or null |
| `Descriptors.CheckNamesSpec` | wasp/src/main/java/com/github/nr4bt/wasp/MethodInfo.java:103-137 | the per-role name checks pass iff no two annotations of the same role share a name; the three lists then hold each role's names in order of appearance |
| `Descriptors.CheckNamesFirstDuplicate` | wasp/src/main/java/com/github/nr4bt/wasp/MethodInfo.java:112-137 | the first annotation that repeats an earlier name of its own role decides the message (Path, Query or Header "name should not be duplicated"), whatever follows |
| `Descriptors.CompileSucceedsIff` | wasp/src/main/java/com/github/nr4bt/wasp/MethodInfo.java:35-39 | init succeeds iff all method annotations are readable, the last parameter is accepted with a resolvable response type, and the names are distinct per role |
| `Descriptors.CompileDescriptor` | wasp/src/main/java/com/github/nr4bt/wasp/MethodInfo.java:61-101 | after success, the verb and URL are the last annotation's (null if none), the response type is the resolved first argument, and the slot array is as long as the parameter list and holds each slot's last annotation |
| `Descriptors.CompileFirstFailingPhase` | wasp/src/main/java/com/github/nr4bt/wasp/MethodInfo.java:35-39 | an earlier phase's exception pre-empts every later phase's check |
| `Info.MethodInfo.Create` | wasp/src/main/java/com/github/nr4bt/wasp/MethodInfo.java:22-30 | the private constructor stores the method; the four fields start null |
| `Info.MethodInfo.NewInstance` | wasp/src/main/java/com/github/nr4bt/wasp/MethodInfo.java:29-43 | construction succeeds iff the compilation does, and then the fresh object holds exactly the compiled descriptor; otherwise it throws the compilation's exception |
| `Info.MethodInfo.Init` | wasp/src/main/java/com/github/nr4bt/wasp/MethodInfo.java:35-39 | runs the phases in order and throws exactly the compilation's exception; on success the fields hold the descriptor, except that a phase with nothing to record leaves its fields as they were |
| `Info.MethodInfo.ParseMethodAnnotations` | wasp/src/main/java/com/github/nr4bt/wasp/MethodInfo.java:45-71 | the loop overwrites verb and URL per annotation, so the fields end as phase 1's result, or unchanged when there are no annotations; it throws phase 1's exception |
| `Info.MethodInfo.ParseResponseObjectType` | wasp/src/main/java/com/github/nr4bt/wasp/MethodInfo.java:73-97 | sets `responseObjectType` to phase 2's type, leaves it when the supertype is not parameterized, and throws phase 2's exception |
| `Info.MethodInfo.GetParameterUpperBound` | wasp/src/main/java/com/github/nr4bt/wasp/MethodInfo.java:145-154 | rewriting each wildcard in place gives the first argument with a wildcard replaced by its first upper bound; a wildcard without bounds or an empty argument list is an index-out-of-bounds at 0 |
| `Info.MethodInfo.ParseParamAnnotations` | wasp/src/main/java/com/github/nr4bt/wasp/MethodInfo.java:99-143 | fills a fresh array slot by slot; on success it equals phase 3's result; a duplicate throws phase 3's exception |
| `Info.MethodInfo.ScanSlot` | wasp/src/main/java/com/github/nr4bt/wasp/MethodInfo.java:109-140 | the inner loop over one parameter's annotations: a duplicate is the exception of the checks over everything visited so far plus this slot; otherwise the lists grow by this slot's names and the slot's last annotation is kept |
| `Info.MethodInfo.CheckName` | wasp/src/main/java/com/github/nr4bt/wasp/MethodInfo.java:110-137 | one annotation's check: a name already in its own role's list is the duplicate exception, otherwise it is appended; Body and other annotations are not checked |
| `Info.MethodInfo.GetRelativeUrl` | wasp/src/main/java/com/github/nr4bt/wasp/MethodInfo.java:164-166 | returns the compiled relative URL |
| `Info.MethodInfo.GetHttpMethod` | wasp/src/main/java/com/github/nr4bt/wasp/MethodInfo.java:168-170 | returns the compiled HTTP verb |
| `Info.MethodInfo.GetResponseObjectType` | wasp/src/main/java/com/github/nr4bt/wasp/MethodInfo.java:172-174 | returns the compiled response type |
| `Info.MethodInfo.GetMethodAnnotations` | wasp/src/main/java/com/github/nr4bt/wasp/MethodInfo.java:176-178 | returns the stored array itself, whose contents are the compiled slot annotations |
| `Errors.WaspError.GetErrorMessage` | wasp/src/main/java/com/github/nr4bt/wasp/WaspError.java:18-23 | a null message reads as `""`; otherwise the message is returned unchanged |
| `Errors.NewWaspError` | wasp/src/main/java/com/github/nr4bt/wasp/WaspError.java:12-27 | the constructor keeps its arguments: `getStatusCode` returns the given code and `getErrorMessage` the given message, or `""` for null |
| `Errors.ToStringFrame` | wasp/src/main/java/com/github/nr4bt/wasp/WaspError.java:30-39 | `toString` starts with `Wasp Error:` and ends with `Status Code: <code> for <url>`, with a null url written as `null` |
| `Errors.MessageSegmentIff` | wasp/src/main/java/com/github/nr4bt/wasp/WaspError.java:32-37 | right after the prefix comes `, Message:` iff the message is non-null; it is followed directly by the message and `Status Code: `, with no separator |
| `Errors.ToStringDistinguishesMessages` | wasp/src/main/java/com/github/nr4bt/wasp/WaspError.java:30-39 | for the same url and code, equal renderings mean equal messages, so a null message and an empty one render differently |
| `Scenarios.GetUserById` | wasp/src/main/java/com/github/nr4bt/wasp/MethodInfo.java:35-39 | `@GET("/users/{id}")` with `(@Path("id") long, CallBack<User>)` compiles to GET, `/users/{id}`, User, `[Path("id"), null]` |
| `Scenarios.PostUserRoles` | wasp/src/main/java/com/github/nr4bt/wasp/MethodInfo.java:99-143 | `(@Body, @Header("Auth"), CallBack)` slots give `[Body, Header("Auth"), null]` |
| `Scenarios.DuplicateQueryRejected` | wasp/src/main/java/com/github/nr4bt/wasp/MethodInfo.java:123-129 | two `@Query("sort")` parameters fail with "Query name should not be duplicated" |
| `Scenarios.SameNameAcrossRolesAccepted` | wasp/src/main/java/com/github/nr4bt/wasp/MethodInfo.java:103-137 | `@Path("sort")` and `@Query("sort")` on one method are accepted |
| `Scenarios.WildcardResolvesToUpperBound` | wasp/src/main/java/com/github/nr4bt/wasp/MethodInfo.java:145-154 | a last parameter `CallBack<? extends User>` resolves the response type to User |

## Left out

- Java reflection is not modelled. `getAnnotations`, `getGenericParameterTypes`,
  `getParameterAnnotations`, the meta-annotation lookup and `invoke` of `value()` appear only
  through their results, held in `MethodSig`, `MethodAnnotation` and `JType`.
- `RetroTypes.getSupertype` and `RetroTypes.getRawType` are not part of this model. Their combined
  result is the function `supertype` given to `MethodInfo`, which is assumed to return normally.
- `synchronized` on `init` is left out: the model is single-threaded.
- `String.format` in `methodError` is modelled as concatenation with the annotation's simple name.
- Exception classes are reduced to the `Failure` tags `NullPointer`, `IllegalArgument` and
  `IndexOutOfBounds`. The JVM's own messages are not modelled: `NullPointer(None)` and the bare
  index and length.
- Info.MethodInfo.Init: on failure, the contract does not state the fields written before the
  exception. The Java constructor then throws, and the half-built object is never seen.
- `StringBuilder.append(int)` is written out as a decimal rendering (`Errors.IntToString`);
  its digits are not related to the value by any lemma.
- Errors.WaspError.GetStatusCode and Errors.WaspError.ToString have no contract of their own.
  What they promise is stated by `Errors.NewWaspError`, `Errors.ToStringFrame`,
  `Errors.MessageSegmentIff` and `Errors.ToStringDistinguishesMessages`.
- Running compilation twice gives equal descriptors: `Compile` is a function, so this holds by
  construction and has no separate lemma.
- The HTTP transport, the proxy and dispatch layer, and body/response serialisation are not part
  of this model.
