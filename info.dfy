/**
 * MethodInfo: the object that init fills, phase by phase, from one reflected interface
 * method. Each phase is proved against its function in module Descriptors.
 */
module Info {
  import opened Wrappers
  import opened Reflection
  import opened Descriptors

  class MethodInfo {
    const sig: MethodSig  // the reflected java.lang.reflect.Method
    /** The supertype walk toward CallBack (RetroTypes.getSupertype of a type and its raw type). */
    const supertype: JType -> JType

    var relativeUrl: Option<string>
    var httpMethod: Option<string>
    var responseObjectType: Option<JType>
    var methodAnnotations: array?<Option<ParamAnnotation>>

    /** The fields hold the compiled descriptor, as after a successful construction. */
    ghost predicate Valid()
      reads this, methodAnnotations
    {
      methodAnnotations != null &&
      Compile(sig, supertype)
        == Success(Descriptor(httpMethod, relativeUrl, responseObjectType, methodAnnotations[..]))
    }

    /** The private constructor before its call to init: every field is still null. */
    constructor Create(sig: MethodSig, supertype: JType -> JType)
      ensures this.sig == sig && this.supertype == supertype
      ensures relativeUrl == None && httpMethod == None && responseObjectType == None
      ensures methodAnnotations == null
    {
      this.sig := sig;
      this.supertype := supertype;
      relativeUrl, httpMethod, responseObjectType, methodAnnotations := None, None, None, null;
    }

    /** newInstance: construct and init; an exception from init reaches the caller. */
    static method NewInstance(sig: MethodSig, supertype: JType -> JType) returns (r: Result<MethodInfo, Failure>)
      ensures r.Success? <==> Compile(sig, supertype).Success?
      ensures r.Failure? ==> r.error == Compile(sig, supertype).error
      ensures r.Success? ==> fresh(r.value) && r.value.sig == sig && r.value.supertype == supertype
      ensures r.Success? ==> r.value.Valid()
    {
      var info := new MethodInfo.Create(sig, supertype);
      var err := info.Init();
      if err.Some? {
        return Failure(err.value);
      }
      return Success(info);
    }

    /**
     * init: the three phases in order, stopping at the first exception. A phase that
     * finds nothing to record (no method annotation, a supertype that is not
     * parameterized) leaves its fields as they were.
     */
    method Init() returns (err: Option<Failure>)
      modifies this
      ensures err.None? <==> Compile(sig, supertype).Success?
      ensures err.Some? ==> err.value == Compile(sig, supertype).error
      ensures err.None? ==> methodAnnotations != null && fresh(methodAnnotations)
      ensures err.None? ==>
        var d := Compile(sig, supertype).value;
        && httpMethod == (if sig.annotations == [] then old(httpMethod) else d.httpMethod)
        && relativeUrl == (if sig.annotations == [] then old(relativeUrl) else d.relativeUrl)
        && responseObjectType == (if d.responseObjectType.None? then old(responseObjectType) else d.responseObjectType)
        && methodAnnotations[..] == d.methodAnnotations
    {
      ParseRouteSpec(sig, sig.annotations);
      err := ParseMethodAnnotations();
      if err.Some? {
        return;
      }
      err := ParseResponseObjectType();
      if err.Some? {
        return;
      }
      err := ParseParamAnnotations();
    }

    /** parseMethodAnnotations: the last annotation wins; one without a readable value throws. */
    method ParseMethodAnnotations() returns (err: Option<Failure>)
      modifies this`relativeUrl, this`httpMethod
      ensures err.None? <==> ParseRoute(sig, sig.annotations).Success?
      ensures err.Some? ==> err.value == ParseRoute(sig, sig.annotations).error
      ensures err.None? ==>
        match ParseRoute(sig, sig.annotations).value
        case None => httpMethod == old(httpMethod) && relativeUrl == old(relativeUrl)
        case Some(route) => httpMethod == Some(route.verb) && relativeUrl == Some(route.url)
    {
      var annotations := sig.annotations;
      for i := 0 to |annotations|
        invariant ParseRoute(sig, annotations[..i]).Success?
        invariant ParseRoute(sig, annotations[..i]).value.None? ==>
          httpMethod == old(httpMethod) && relativeUrl == old(relativeUrl)
        invariant ParseRoute(sig, annotations[..i]).value.Some? ==>
          var route := ParseRoute(sig, annotations[..i]).value.value;
          httpMethod == Some(route.verb) && relativeUrl == Some(route.url)
      {
        var annotation := annotations[i];
        assert annotations[..i + 1][..i] == annotations[..i];
        if !Readable(annotation) {
          ParseRouteSpec(sig, annotations[..i]);
          assert forall k :: 0 <= k < i ==> annotations[..i][k] == annotations[k];
          ParseRouteFirstFailure(sig, annotations, i);
          if annotation.Unmarked? {
            // no @RestMethod among the annotation type's own annotations
            return Some(NullPointer(Some(NullAnnotationMessage)));
          }
          return Some(MethodError(sig, UnreadableValueMessage(annotation.simpleName)));
        }
        relativeUrl := annotation.value;
        httpMethod := Some(annotation.verb);
      }
      assert annotations[..|annotations|] == annotations;
      return None;
    }

    /** parseResponseObjectType: checks the last parameter and resolves the response type. */
    method ParseResponseObjectType() returns (err: Option<Failure>)
      modifies this`responseObjectType
      ensures err.None? <==> ResponseType(sig.parameterTypes, supertype).Success?
      ensures err.Some? ==> err.value == ResponseType(sig.parameterTypes, supertype).error
      ensures err.None? ==>
        match ResponseType(sig.parameterTypes, supertype).value
        case None => responseObjectType == old(responseObjectType)
        case Some(t) => responseObjectType == Some(t)
    {
      var parameterTypes := sig.parameterTypes;
      if |parameterTypes| == 0 {
        return Some(IllegalArgument(NoParamsMessage));
      }
      var lastArgType: JType;
      var lastArgClass: Option<JType> := None;
      var typeToCheck := parameterTypes[|parameterTypes| - 1];
      lastArgType := typeToCheck;
      if typeToCheck.Parameterized? {
        typeToCheck := typeToCheck.raw;
      }
      if typeToCheck.Class? {
        lastArgClass := Some(typeToCheck);
      }
      if lastArgClass.None? {
        // CallBack.class.isAssignableFrom(null)
        return Some(NullPointer(None));
      }
      if !lastArgClass.value.assignableToCallBack {
        return Some(IllegalArgument(NotCallBackMessage));
      }
      lastArgType := supertype(lastArgType);
      if lastArgType.Parameterized? {
        var bound := GetParameterUpperBound(lastArgType.args);
        if bound.Failure? {
          return Some(bound.error);
        }
        responseObjectType := Some(bound.value);
      }
      return None;
    }

    /**
     * getParameterUpperBound: rewrites each wildcard in a copy of the type arguments to
     * its first upper bound, then returns the first argument.
     */
    static method GetParameterUpperBound(args: seq<JType>) returns (r: Result<JType, Failure>)
      ensures r == ParameterUpperBound(args)
    {
      var types := new JType[|args|](i requires 0 <= i < |args| => args[i]);
      for i := 0 to types.Length
        invariant forall k :: 0 <= k < i ==> HasUpperBound(args[k]) && types[k] == UpperBoundOf(args[k])
        invariant forall k :: i <= k < types.Length ==> types[k] == args[k]
      {
        var paramType := types[i];
        if paramType.Wildcard? {
          if |paramType.upperBounds| == 0 {
            return Failure(IndexOutOfBounds(0, 0));
          }
          types[i] := paramType.upperBounds[0];
        }
      }
      if types.Length == 0 {
        return Failure(IndexOutOfBounds(0, 0));
      }
      return Success(types[0]);
    }

    /**
     * parseParamAnnotations: records the last annotation of each slot in a fresh array and
     * rejects a repeated @Path, @Query or @Header name, each role with its own list.
     */
    method ParseParamAnnotations() returns (err: Option<Failure>)
      modifies this`methodAnnotations
      ensures methodAnnotations != null && fresh(methodAnnotations)
      ensures err.None? <==> ParamRoles(sig.parameterAnnotations).Success?
      ensures err.Some? ==> err.value == ParamRoles(sig.parameterAnnotations).error
      ensures err.None? ==> methodAnnotations[..] == ParamRoles(sig.parameterAnnotations).value
    {
      var annotationArrays := sig.parameterAnnotations;
      var result := new Option<ParamAnnotation>[|annotationArrays|];
      methodAnnotations := result;

      var pathParams: seq<string> := [];
      var queryParams: seq<string> := [];
      var headerParams: seq<string> := [];

      var count := |annotationArrays|;
      for i := 0 to count
        invariant methodAnnotations == result
        invariant CheckNames(Flatten(annotationArrays[..i])) == Success(Seen(pathParams, queryParams, headerParams))
        invariant forall k :: 0 <= k < i ==> result[k] == LastOf(annotationArrays[k])
      {
        ghost var done := Flatten(annotationArrays[..i]);
        var duplicate, annotationResult;
        duplicate, annotationResult, pathParams, queryParams, headerParams :=
          ScanSlot(done, annotationArrays[i], pathParams, queryParams, headerParams);
        if duplicate.Some? {
          SlotAborts(annotationArrays, i);
          ParamRolesThrows(annotationArrays);
          return duplicate;
        }
        FlattenSnoc(annotationArrays, i);
        assert Flatten(annotationArrays[..i + 1]) == done + annotationArrays[i];
        result[i] := annotationResult;
      }
      assert annotationArrays[..count] == annotationArrays;
      ParamRolesChecked(annotationArrays, result[..]);
      return None;
    }

    /**
     * The inner loop of parseParamAnnotations over one slot: each annotation is checked
     * against the lists left by the annotations before it (those of earlier slots are
     * `done`), and the last annotation seen is kept.
     */
    static method ScanSlot(ghost done: seq<ParamAnnotation>, slot: seq<ParamAnnotation>,
                           pathParams: seq<string>, queryParams: seq<string>, headerParams: seq<string>)
      returns (duplicate: Option<Failure>, annotationResult: Option<ParamAnnotation>,
               paths: seq<string>, queries: seq<string>, headers: seq<string>)
      requires CheckNames(done) == Success(Seen(pathParams, queryParams, headerParams))
      ensures duplicate.Some? ==> CheckNames(done + slot) == Failure(duplicate.value)
      ensures duplicate.None? ==>
        CheckNames(done + slot) == Success(Seen(paths, queries, headers)) && annotationResult == LastOf(slot)
    {
      paths, queries, headers := pathParams, queryParams, headerParams;
      annotationResult := None;
      assert done + slot[..0] == done;
      for j := 0 to |slot|
        invariant CheckNames(done + slot[..j]) == Success(Seen(paths, queries, headers))
        invariant annotationResult == LastOf(slot[..j])
      {
        var annotation := slot[j];
        CheckNamesNext(done, slot, j);
        duplicate, paths, queries, headers := CheckName(annotation, paths, queries, headers);
        if duplicate.Some? {
          assert slot == slot[..j + 1] + slot[j + 1..];
          assert done + slot == (done + slot[..j + 1]) + slot[j + 1..];
          CheckNamesKeepsFailure(done + slot[..j + 1], slot[j + 1..]);
          return;
        }
        annotationResult := Some(annotation);
      }
      assert slot[..|slot|] == slot;
      duplicate := None;
    }

    /**
     * The checks on one parameter annotation: a @Path, @Query or @Header name already in
     * its own role's list is a duplicate, otherwise the name is added; @Body and any other
     * annotation are not checked.
     */
    static method CheckName(annotation: ParamAnnotation, pathParams: seq<string>, queryParams: seq<string>,
                            headerParams: seq<string>)
      returns (duplicate: Option<Failure>, paths: seq<string>, queries: seq<string>, headers: seq<string>)
      ensures Step(Seen(pathParams, queryParams, headerParams), annotation)
        == if duplicate.Some? then Failure(duplicate.value) else Success(Seen(paths, queries, headers))
    {
      duplicate, paths, queries, headers := None, pathParams, queryParams, headerParams;
      match annotation {
        case Path(value) =>
          if value in pathParams {
            duplicate := Some(DuplicateError(PathRole));
          } else {
            paths := pathParams + [value];
          }
        case Body =>
        case Query(value) =>
          if value in queryParams {
            duplicate := Some(DuplicateError(QueryRole));
          } else {
            queries := queryParams + [value];
          }
        case Header(value) =>
          if value in headerParams {
            duplicate := Some(DuplicateError(HeaderRole));
          } else {
            headers := headerParams + [value];
          }
        case Other(_) =>
      }
    }

    function GetRelativeUrl(): (r: Option<string>)
      reads this, methodAnnotations
      requires Valid()
      ensures r == Compile(sig, supertype).value.relativeUrl
    {
      relativeUrl
    }

    function GetHttpMethod(): (r: Option<string>)
      reads this, methodAnnotations
      requires Valid()
      ensures r == Compile(sig, supertype).value.httpMethod
    {
      httpMethod
    }

    function GetResponseObjectType(): (r: Option<JType>)
      reads this, methodAnnotations
      requires Valid()
      ensures r == Compile(sig, supertype).value.responseObjectType
    {
      responseObjectType
    }

    /** The stored array itself, not a copy. */
    function GetMethodAnnotations(): (r: array<Option<ParamAnnotation>>)
      reads this, methodAnnotations
      requires Valid()
      ensures r == methodAnnotations && r[..] == Compile(sig, supertype).value.methodAnnotations
    {
      methodAnnotations
    }
  }
}
