/**
 * What MethodInfo.init computes, as functions of the reflected method: the route taken
 * from the method annotations, the response type taken from the last parameter, and the
 * classified parameter annotations, with the lemmas that say what each phase promises.
 */
module Descriptors {
  import opened Wrappers
  import opened Reflection
  import opened Text

  /** The HTTP verb and the relative URL read from one @RestMethod-marked annotation. */
  datatype Route = Route(verb: string, url: string)

  /** What a successful init leaves in MethodInfo's four fields on a fresh object (None = null). */
  datatype Descriptor = Descriptor(
    httpMethod: Option<string>,
    relativeUrl: Option<string>,
    responseObjectType: Option<JType>,
    methodAnnotations: seq<Option<ParamAnnotation>>)

  // ---------------------------------------------------------------------------------------
  // methodError

  /** The IllegalArgumentException that names the offending class and method. */
  function MethodError(m: MethodSig, message: string): (e: Failure)
    ensures e.IllegalArgument?
    ensures StartsWith(e.message, m.declaringClass + "." + m.name + ": ")
    ensures EndsWith(e.message, message)
    ensures |e.message| == |m.declaringClass| + |m.name| + 3 + |message|
  {
    IllegalArgument(m.declaringClass + "." + m.name + ": " + message)
  }

  // ---------------------------------------------------------------------------------------
  // Phase 1: parseMethodAnnotations

  const NullAnnotationMessage := "method annotation may not be null"

  function UnreadableValueMessage(simpleName: string): string {
    "Failed to extract String 'value' from @" + simpleName + " annotation."
  }

  /** An annotation that carries a @RestMethod marker and whose value() reads as a String. */
  predicate Readable(a: MethodAnnotation) {
    a.Marked? && a.value.Some?
  }

  predicate AllReadable(anns: seq<MethodAnnotation>) {
    forall i :: 0 <= i < |anns| ==> Readable(anns[i])
  }

  /** The handling of one method annotation. */
  function ReadRoute(m: MethodSig, a: MethodAnnotation): (r: Result<Route, Failure>)
    ensures r.Success? <==> Readable(a)
  {
    match a
    case Unmarked(_) => Failure(NullPointer(Some(NullAnnotationMessage)))
    case Marked(simpleName, verb, value) =>
      if value.None? then Failure(MethodError(m, UnreadableValueMessage(simpleName)))
      else Success(Route(verb, value.value))
  }

  /**
   * The loop over the method annotations: each readable one overwrites the route, the
   * first unreadable one throws. Success(None) means no annotation was seen, so the
   * fields keep the values they had.
   */
  function ParseRoute(m: MethodSig, anns: seq<MethodAnnotation>): Result<Option<Route>, Failure>
    decreases |anns|
  {
    if anns == [] then Success(None)
    else
      match ParseRoute(m, anns[..|anns| - 1])
      case Failure(e) => Failure(e)
      case Success(_) =>
        match ReadRoute(m, anns[|anns| - 1])
        case Failure(e) => Failure(e)
        case Success(route) => Success(Some(route))
  }

  /** Phase 1 succeeds exactly when every annotation is readable; the last one wins. */
  lemma {:induction false} ParseRouteSpec(m: MethodSig, anns: seq<MethodAnnotation>)
    ensures ParseRoute(m, anns).Success? <==> AllReadable(anns)
    ensures ParseRoute(m, anns).Success? && anns == [] ==> ParseRoute(m, anns).value == None
    ensures ParseRoute(m, anns).Success? && anns != [] ==>
      ParseRoute(m, anns).value == Some(Route(anns[|anns| - 1].verb, anns[|anns| - 1].value.value))
    decreases |anns|
  {
    if anns != [] {
      var p := anns[..|anns| - 1];
      ParseRouteSpec(m, p);
      assert forall i :: 0 <= i < |p| ==> p[i] == anns[i];
    }
  }

  /** The first annotation that is not readable decides the exception, whatever follows it. */
  lemma {:induction false} ParseRouteFirstFailure(m: MethodSig, anns: seq<MethodAnnotation>, k: nat)
    requires k < |anns| && !Readable(anns[k])
    requires forall i :: 0 <= i < k ==> Readable(anns[i])
    ensures anns[k].Unmarked? ==>
      ParseRoute(m, anns) == Failure(NullPointer(Some("method annotation may not be null")))
    ensures anns[k].Marked? ==>
      ParseRoute(m, anns) == Failure(IllegalArgument(m.declaringClass + "." + m.name + ": "
        + ("Failed to extract String 'value' from @" + anns[k].simpleName + " annotation.")))
    decreases |anns|
  {
    var p := anns[..|anns| - 1];
    if k == |anns| - 1 {
      ParseRouteSpec(m, p);
      assert ParseRoute(m, p).Success?;
    } else {
      ParseRouteFirstFailure(m, p, k);
    }
  }

  // ---------------------------------------------------------------------------------------
  // Phase 2: parseResponseObjectType and getParameterUpperBound

  const NoParamsMessage := "Callback should be added as param"
  const NotCallBackMessage := "Last param should be CallBack"

  /**
   * lastArgClass: the type itself when it is a Class, its raw type when it is a
   * parameterized type whose raw type is a Class, otherwise null.
   */
  function LastArgClass(t: JType): (c: Option<JType>)
    ensures c.Some? <==> t.Class? || (t.Parameterized? && t.raw.Class?)
    ensures c.Some? ==> c.value.Class? && c.value == (if t.Class? then t else t.raw)
  {
    var typeToCheck := if t.Parameterized? then t.raw else t;
    if typeToCheck.Class? then Some(typeToCheck) else None
  }

  /** A type argument that can be resolved: a wildcard needs at least one upper bound. */
  predicate HasUpperBound(t: JType) {
    t.Wildcard? ==> |t.upperBounds| > 0
  }

  /** A type argument with a wildcard replaced by its first upper bound. */
  function UpperBoundOf(t: JType): JType
    requires HasUpperBound(t)
  {
    if t.Wildcard? then t.upperBounds[0] else t
  }

  /**
   * getParameterUpperBound: every wildcard argument is replaced by its first upper bound
   * (a wildcard without one throws), then the first argument is returned (none throws).
   */
  function ParameterUpperBound(args: seq<JType>): (r: Result<JType, Failure>)
  {
    if |args| == 0 || exists i :: 0 <= i < |args| && !HasUpperBound(args[i]) then
      Failure(IndexOutOfBounds(0, 0))
    else
      Success(UpperBoundOf(args[0]))
  }

  /**
   * Phase 2 on getGenericParameterTypes(), with the supertype walk toward CallBack given
   * as `supertype`. Success(None) means the walk did not reach a parameterized type, so
   * responseObjectType keeps the value it had.
   */
  function ResponseType(types: seq<JType>, supertype: JType -> JType): (r: Result<Option<JType>, Failure>)
    ensures |types| == 0 ==> r == Failure(IllegalArgument(NoParamsMessage))
    ensures |types| > 0 && LastArgClass(types[|types| - 1]).None? ==> r == Failure(NullPointer(None))
    ensures (|types| > 0 && LastArgClass(types[|types| - 1]).Some?
             && !LastArgClass(types[|types| - 1]).value.assignableToCallBack) ==>
      r == Failure(IllegalArgument(NotCallBackMessage))
    ensures r.Success? ==>
      |types| > 0 && LastArgClass(types[|types| - 1]).Some?
      && LastArgClass(types[|types| - 1]).value.assignableToCallBack
    ensures r.Success? ==> (r.value.Some? <==> supertype(types[|types| - 1]).Parameterized?)
    ensures r.Success? && r.value.Some? ==>
      var args := supertype(types[|types| - 1]).args;
      |args| > 0 && HasUpperBound(args[0]) && r.value.value == UpperBoundOf(args[0])
  {
    if |types| == 0 then Failure(IllegalArgument(NoParamsMessage))
    else
      var lastArgType := types[|types| - 1];
      var lastArgClass := LastArgClass(lastArgType);
      if lastArgClass.None? then Failure(NullPointer(None))
      else if !lastArgClass.value.assignableToCallBack then Failure(IllegalArgument(NotCallBackMessage))
      else
        var resolved := supertype(lastArgType);
        if resolved.Parameterized? then
          match ParameterUpperBound(resolved.args)
          case Failure(e) => Failure(e)
          case Success(t) => Success(Some(t))
        else
          Success(None)
  }

  // ---------------------------------------------------------------------------------------
  // Phase 3: parseParamAnnotations

  /** The three name-carrying roles; each keeps its own list of names seen. */
  datatype Role = PathRole | QueryRole | HeaderRole

  /** The role and name an annotation claims, if any; @Body and others claim none. */
  function Key(a: ParamAnnotation): Option<(Role, string)> {
    match a
    case Path(n) => Some((PathRole, n))
    case Query(n) => Some((QueryRole, n))
    case Header(n) => Some((HeaderRole, n))
    case Body => None
    case Other(_) => None
  }

  /** Two annotations of the same named role with the same name. */
  predicate Clash(a: ParamAnnotation, b: ParamAnnotation) {
    Key(a).Some? && Key(a) == Key(b)
  }

  predicate HasEarlierTwin(anns: seq<ParamAnnotation>, j: nat)
    requires j < |anns|
  {
    exists i :: 0 <= i < j && Clash(anns[i], anns[j])
  }

  predicate DistinctNames(anns: seq<ParamAnnotation>) {
    forall i, j :: 0 <= i < j < |anns| ==> !Clash(anns[i], anns[j])
  }

  /** The names of one role, in order of appearance. */
  function Names(anns: seq<ParamAnnotation>, role: Role): seq<string>
    decreases |anns|
  {
    if anns == [] then []
    else
      var k := Key(anns[|anns| - 1]);
      Names(anns[..|anns| - 1], role) + (if k.Some? && k.value.0 == role then [k.value.1] else [])
  }

  /** The local lists pathParams, queryParams and headerParams. */
  datatype Seen = Seen(paths: seq<string>, queries: seq<string>, headers: seq<string>)

  const NoneSeen := Seen([], [], [])

  function Listed(seen: Seen, role: Role): seq<string> {
    match role
    case PathRole => seen.paths
    case QueryRole => seen.queries
    case HeaderRole => seen.headers
  }

  function DuplicateError(role: Role): Failure {
    match role
    case PathRole => IllegalArgument("Path name should not be duplicated")
    case QueryRole => IllegalArgument("Query name should not be duplicated")
    case HeaderRole => IllegalArgument("Header name should not be duplicated")
  }

  /** The handling of one parameter annotation. */
  function Step(seen: Seen, a: ParamAnnotation): Result<Seen, Failure> {
    match a
    case Path(value) =>
      if value in seen.paths then Failure(DuplicateError(PathRole))
      else Success(seen.(paths := seen.paths + [value]))
    case Body => Success(seen)
    case Query(value) =>
      if value in seen.queries then Failure(DuplicateError(QueryRole))
      else Success(seen.(queries := seen.queries + [value]))
    case Header(value) =>
      if value in seen.headers then Failure(DuplicateError(HeaderRole))
      else Success(seen.(headers := seen.headers + [value]))
    case Other(_) => Success(seen)
  }

  /** Every parameter annotation in slot order, the order the nested loops visit them. */
  function Flatten(slots: seq<seq<ParamAnnotation>>): seq<ParamAnnotation>
    decreases |slots|
  {
    if slots == [] then [] else Flatten(slots[..|slots| - 1]) + slots[|slots| - 1]
  }

  /** The name checks over annotations visited in order, starting from empty lists. */
  function CheckNames(anns: seq<ParamAnnotation>): Result<Seen, Failure>
    decreases |anns|
  {
    if anns == [] then Success(NoneSeen)
    else
      match CheckNames(anns[..|anns| - 1])
      case Failure(e) => Failure(e)
      case Success(seen) => Step(seen, anns[|anns| - 1])
  }

  lemma {:induction false} InNames(anns: seq<ParamAnnotation>, role: Role, n: string)
    ensures n in Names(anns, role) <==> exists i :: 0 <= i < |anns| && Key(anns[i]) == Some((role, n))
    decreases |anns|
  {
    if anns != [] {
      var p := anns[..|anns| - 1];
      InNames(p, role, n);
      assert forall i :: 0 <= i < |p| ==> p[i] == anns[i];
    }
  }

  lemma DistinctNamesSnoc(p: seq<ParamAnnotation>, x: ParamAnnotation)
    ensures DistinctNames(p + [x]) <==> DistinctNames(p) && forall i :: 0 <= i < |p| ==> !Clash(p[i], x)
  {
    var anns := p + [x];
    assert forall i :: 0 <= i < |p| ==> anns[i] == p[i];
    if DistinctNames(p) && forall i :: 0 <= i < |p| ==> !Clash(p[i], x) {
      forall i, j | 0 <= i < j < |anns| ensures !Clash(anns[i], anns[j]) {
        if j == |p| {
          assert !Clash(p[i], x);
        }
      }
    }
    if DistinctNames(anns) {
      forall i, j | 0 <= i < j < |p| ensures !Clash(p[i], p[j]) {
        assert !Clash(anns[i], anns[j]);
      }
      forall i | 0 <= i < |p| ensures !Clash(p[i], x) {
        assert !Clash(anns[i], anns[|p|]);
      }
    }
  }

  lemma NamesSnoc(p: seq<ParamAnnotation>, x: ParamAnnotation, role: Role)
    ensures Names(p + [x], role)
      == Names(p, role) + (if Key(x).Some? && Key(x).value.0 == role then [Key(x).value.1] else [])
  {
    assert (p + [x])[..|p + [x]| - 1] == p;
  }

  /** A name is already listed for its role exactly when an earlier annotation clashes with it. */
  lemma ListedIffClash(p: seq<ParamAnnotation>, x: ParamAnnotation)
    requires Key(x).Some?
    ensures Key(x).value.1 in Names(p, Key(x).value.0) <==> exists i :: 0 <= i < |p| && Clash(p[i], x)
  {
    var role, n := Key(x).value.0, Key(x).value.1;
    InNames(p, role, n);
    if n in Names(p, role) {
      var i :| 0 <= i < |p| && Key(p[i]) == Some((role, n));
      assert Clash(p[i], x);
    }
  }

  /** One name check against lists that hold the names of the earlier annotations. */
  lemma StepAgainstNames(p: seq<ParamAnnotation>, x: ParamAnnotation)
    ensures var r := Step(Seen(Names(p, PathRole), Names(p, QueryRole), Names(p, HeaderRole)), x);
      && (r.Success? <==> forall i :: 0 <= i < |p| ==> !Clash(p[i], x))
      && (r.Success? ==> r.value == Seen(Names(p + [x], PathRole), Names(p + [x], QueryRole), Names(p + [x], HeaderRole)))
      && (r.Failure? ==> Key(x).Some? && r.error == DuplicateError(Key(x).value.0))
  {
    NamesSnoc(p, x, PathRole);
    NamesSnoc(p, x, QueryRole);
    NamesSnoc(p, x, HeaderRole);
    if Key(x).Some? {
      ListedIffClash(p, x);
    } else {
      assert forall i :: 0 <= i < |p| ==> !Clash(p[i], x);
    }
  }

  /** The name checks pass exactly when no two annotations clash; the lists hold the names. */
  lemma {:induction false} CheckNamesSpec(anns: seq<ParamAnnotation>)
    ensures CheckNames(anns).Success? <==> DistinctNames(anns)
    ensures CheckNames(anns).Success? ==>
      CheckNames(anns).value == Seen(Names(anns, PathRole), Names(anns, QueryRole), Names(anns, HeaderRole))
    decreases |anns|
  {
    if anns != [] {
      var p, x := anns[..|anns| - 1], anns[|anns| - 1];
      assert anns == p + [x];
      CheckNamesSpec(p);
      CheckNamesSnoc(p, x);
      DistinctNamesSnoc(p, x);
      StepAgainstNames(p, x);
    }
  }

  /** The first annotation that repeats an earlier name of its role decides the exception. */
  lemma {:induction false} CheckNamesFirstDuplicate(anns: seq<ParamAnnotation>, j: nat)
    requires j < |anns| && HasEarlierTwin(anns, j)
    requires forall k :: 0 <= k < j ==> !HasEarlierTwin(anns, k)
    ensures Key(anns[j]).Some?
    ensures CheckNames(anns) == Failure(DuplicateError(Key(anns[j]).value.0))
    decreases |anns|
  {
    var p, x := anns[..|anns| - 1], anns[|anns| - 1];
    assert anns == p + [x];
    assert forall i :: 0 <= i < |p| ==> p[i] == anns[i];
    var i0 :| 0 <= i0 < j && Clash(anns[i0], anns[j]);
    if j == |anns| - 1 {
      forall a, b | 0 <= a < b < |p| ensures !Clash(p[a], p[b]) {
        assert !HasEarlierTwin(anns, b);
      }
      CheckNamesSpec(p);
      CheckNamesSnoc(p, x);
      StepAgainstNames(p, x);
      assert Clash(p[i0], x);
    } else {
      assert HasEarlierTwin(p, j) by { assert Clash(p[i0], p[j]); }
      forall k | 0 <= k < j ensures !HasEarlierTwin(p, k) {
        assert !HasEarlierTwin(anns, k);
      }
      CheckNamesFirstDuplicate(p, j);
      CheckNamesSnoc(p, x);
    }
  }

  lemma {:induction false} FlattenAppend(x: seq<seq<ParamAnnotation>>, y: seq<seq<ParamAnnotation>>)
    ensures Flatten(x + y) == Flatten(x) + Flatten(y)
    decreases |y|
  {
    if y == [] {
      assert x + y == x;
    } else {
      var y', last := y[..|y| - 1], y[|y| - 1];
      assert (x + y)[..|x + y| - 1] == x + y';
      assert (x + y)[|x + y| - 1] == last;
      FlattenAppend(x, y');
      calc {
        Flatten(x + y);
        Flatten(x + y') + last;
        Flatten(x) + Flatten(y') + last;
        Flatten(x) + (Flatten(y') + last);
      }
    }
  }

  /** Slot i is visited right after the slots before it. */
  lemma FlattenSnoc(slots: seq<seq<ParamAnnotation>>, i: nat)
    requires i < |slots|
    ensures Flatten(slots[..i + 1]) == Flatten(slots[..i]) + slots[i]
  {
    var front := slots[..i + 1];
    assert front[..|front| - 1] == slots[..i];
    assert front[|front| - 1] == slots[i];
  }

  /** The nested loops visit slot i after every annotation of the earlier slots. */
  lemma FlattenSplit(slots: seq<seq<ParamAnnotation>>, i: nat)
    requires i < |slots|
    ensures Flatten(slots) == Flatten(slots[..i]) + slots[i] + Flatten(slots[i + 1..])
  {
    var front, back := slots[..i + 1], slots[i + 1..];
    assert slots == front + back;
    FlattenAppend(front, back);
    FlattenSnoc(slots, i);
  }

  /** Once a name check has thrown, later annotations are never looked at. */
  lemma {:induction false} CheckNamesKeepsFailure(s: seq<ParamAnnotation>, t: seq<ParamAnnotation>)
    requires CheckNames(s).Failure?
    ensures CheckNames(s + t) == CheckNames(s)
    decreases |t|
  {
    if t == [] {
      assert s + t == s;
    } else {
      var t' := t[..|t| - 1];
      assert (s + t)[..|s + t| - 1] == s + t';
      CheckNamesKeepsFailure(s, t');
    }
  }

  /** One more annotation visited: its check runs on the lists left by the earlier ones. */
  lemma CheckNamesSnoc(s: seq<ParamAnnotation>, x: ParamAnnotation)
    ensures CheckNames(s + [x]) ==
      match CheckNames(s)
      case Failure(e) => Failure(e)
      case Success(seen) => Step(seen, x)
  {
    assert (s + [x])[..|s + [x]| - 1] == s;
  }

  /** Visiting annotation j of a slot after the earlier annotations. */
  lemma CheckNamesNext(done: seq<ParamAnnotation>, slot: seq<ParamAnnotation>, j: nat)
    requires j < |slot|
    ensures CheckNames(done + slot[..j + 1]) ==
      match CheckNames(done + slot[..j])
      case Failure(e) => Failure(e)
      case Success(seen) => Step(seen, slot[j])
  {
    assert done + slot[..j + 1] == (done + slot[..j]) + [slot[j]];
    CheckNamesSnoc(done + slot[..j], slot[j]);
  }

  /** A duplicate found in slot i is the exception of the whole phase. */
  lemma SlotAborts(slots: seq<seq<ParamAnnotation>>, i: nat)
    requires i < |slots|
    requires CheckNames(Flatten(slots[..i]) + slots[i]).Failure?
    ensures CheckNames(Flatten(slots)) == CheckNames(Flatten(slots[..i]) + slots[i])
  {
    FlattenSplit(slots, i);
    CheckNamesKeepsFailure(Flatten(slots[..i]) + slots[i], Flatten(slots[i + 1..]));
  }

  /** The last annotation on a slot, of any kind, or null when the slot has none. */
  function LastOf(slot: seq<ParamAnnotation>): Option<ParamAnnotation> {
    if slot == [] then None else Some(slot[|slot| - 1])
  }

  /** Phase 3 on getParameterAnnotations(). */
  function ParamRoles(slots: seq<seq<ParamAnnotation>>): (r: Result<seq<Option<ParamAnnotation>>, Failure>)
    ensures r.Success? <==> DistinctNames(Flatten(slots))
    ensures r.Success? ==> |r.value| == |slots| && forall i :: 0 <= i < |slots| ==> r.value[i] == LastOf(slots[i])
    ensures r.Failure? ==> CheckNames(Flatten(slots)).Failure? && r.error == CheckNames(Flatten(slots)).error
  {
    CheckNamesSpec(Flatten(slots));
    match CheckNames(Flatten(slots))
    case Failure(e) => Failure(e)
    case Success(_) => Success(seq(|slots|, i requires 0 <= i < |slots| => LastOf(slots[i])))
  }

  /** Name checks that pass over every slot give one last annotation per slot. */
  lemma ParamRolesChecked(slots: seq<seq<ParamAnnotation>>, last: seq<Option<ParamAnnotation>>)
    requires CheckNames(Flatten(slots)).Success?
    requires |last| == |slots| && forall i :: 0 <= i < |slots| ==> last[i] == LastOf(slots[i])
    ensures ParamRoles(slots) == Success(last)
  {
    var r := ParamRoles(slots);
    CheckNamesSpec(Flatten(slots));
    assert r.Success?;
    assert forall i :: 0 <= i < |last| ==> r.value[i] == last[i];
    assert r.value == last;
    assert r == Success(r.value);
  }

  /** Name checks that throw are the exception of the phase. */
  lemma ParamRolesThrows(slots: seq<seq<ParamAnnotation>>)
    requires CheckNames(Flatten(slots)).Failure?
    ensures ParamRoles(slots) == Failure(CheckNames(Flatten(slots)).error)
  {
  }

  // ---------------------------------------------------------------------------------------
  // init: the three phases in order

  function Compile(m: MethodSig, supertype: JType -> JType): Result<Descriptor, Failure> {
    var route :- ParseRoute(m, m.annotations);
    var response :- ResponseType(m.parameterTypes, supertype);
    var roles :- ParamRoles(m.parameterAnnotations);
    Success(Descriptor(
      if route.Some? then Some(route.value.verb) else None,
      if route.Some? then Some(route.value.url) else None,
      response,
      roles))
  }

  // ---------------------------------------------------------------------------------------
  // init: the three phases in order

  /** The last parameter is accepted by phase 2 and its response type can be resolved. */
  predicate AcceptsLastParam(types: seq<JType>, supertype: JType -> JType) {
    |types| > 0 &&
    var last := types[|types| - 1];
    LastArgClass(last).Some? && LastArgClass(last).value.assignableToCallBack &&
    (supertype(last).Parameterized? ==>
      var args := supertype(last).args;
      |args| > 0 && forall i :: 0 <= i < |args| ==> HasUpperBound(args[i]))
  }

  /** Compilation succeeds exactly when each of the three phases accepts its input. */
  lemma CompileSucceedsIff(m: MethodSig, supertype: JType -> JType)
    ensures Compile(m, supertype).Success? <==>
      AllReadable(m.annotations)
      && AcceptsLastParam(m.parameterTypes, supertype)
      && DistinctNames(Flatten(m.parameterAnnotations))
  {
    ParseRouteSpec(m, m.annotations);
  }

  /** A successful compilation: the last verb annotation, the resolved type, one entry per slot. */
  lemma CompileDescriptor(m: MethodSig, supertype: JType -> JType)
    requires Compile(m, supertype).Success?
    ensures var d := Compile(m, supertype).value;
      var anns := m.annotations;
      && (anns == [] ==> d.httpMethod == None && d.relativeUrl == None)
      && (anns != [] ==> d.httpMethod == Some(anns[|anns| - 1].verb)
                         && d.relativeUrl == anns[|anns| - 1].value)
      && (var last := m.parameterTypes[|m.parameterTypes| - 1];
          d.responseObjectType ==
            if supertype(last).Parameterized? then Some(UpperBoundOf(supertype(last).args[0])) else None)
      && |d.methodAnnotations| == |m.parameterAnnotations|
      && forall i :: 0 <= i < |m.parameterAnnotations| ==>
           d.methodAnnotations[i] == LastOf(m.parameterAnnotations[i])
  {
    ParseRouteSpec(m, m.annotations);
  }

  /**
   * The phases run in order: a method annotation that is not readable pre-empts every
   * parameter check, and a rejected last parameter pre-empts the name checks.
   */
  lemma CompileFirstFailingPhase(m: MethodSig, supertype: JType -> JType)
    ensures !AllReadable(m.annotations) ==>
      ParseRoute(m, m.annotations).Failure?
      && Compile(m, supertype) == Failure(ParseRoute(m, m.annotations).error)
    ensures (AllReadable(m.annotations) && !AcceptsLastParam(m.parameterTypes, supertype)) ==>
      Compile(m, supertype) == ResponseType(m.parameterTypes, supertype).PropagateFailure()
    ensures (AllReadable(m.annotations) && AcceptsLastParam(m.parameterTypes, supertype)
             && !DistinctNames(Flatten(m.parameterAnnotations))) ==>
      CheckNames(Flatten(m.parameterAnnotations)).Failure?
      && Compile(m, supertype) == Failure(CheckNames(Flatten(m.parameterAnnotations)).error)
  {
    ParseRouteSpec(m, m.annotations);
    CheckNamesSpec(Flatten(m.parameterAnnotations));
  }
}
